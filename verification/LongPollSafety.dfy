/** What holds in every reachable world of the long-poll state machine. */
module LongPollSafety {
  import opened Prelude
  import opened Requests
  import opened Notifications
  import opened LongPoll

  // ---------------------------------------------------------------------------
  // Histories
  // ---------------------------------------------------------------------------

  /** One row leaves `pending` by way of `exit`. */
  lemma ExitKeepsRows(
      rows: Table, born: map<State, Birth>, history: map<State, seq<Event>>, st: State, row: Row, exit: seq<Event>)
    requires RowsHold(rows, born, history)
    requires st in rows && rows[st].status.Pending?
    requires ExitStory(exit, born[st]) && RowMatches(row, exit, born[st])
    ensures history[st] + exit == exit
    ensures RowsHold(rows[st := row], born, history[st := exit])
  {
    assert RowMatches(rows[st], history[st], born[st]);
    assert history[st] + exit == exit;
  }

  /** Answers survive when histories only gain events, none of them at a poller that has
      already collected. */
  lemma ExitKeepsAnswers(history: map<State, seq<Event>>, pollers: map<nat, Poller>, st: State, exit: seq<Event>)
    requires AnswersHold(history, pollers)
    requires st in history && history[st] == []
    ensures AnswersHold(history[st := exit], pollers)
  {
    forall id | id in pollers
      ensures AnswerHolds(history[st := exit], id, pollers[id])
    {
      assert AnswerHolds(history, id, pollers[id]);
    }
  }

  lemma SilentExitKeepsStories(w: World, st: State)
    requires RowsHold(w.rows, w.born, w.history) && AnswersHold(w.history, w.pollers)
    ensures var w' := ExpireSilently(w, st);
            RowsHold(w'.rows, w'.born, w'.history) && AnswersHold(w'.history, w'.pollers)
  {
    var o := MarkExpired(w.rows, st, w.now);
    if o.row.Some? {
      var exit := [Left(Expired, None, w.now, o.row.value.result)];
      assert RowMatches(w.rows[st], w.history[st], w.born[st]);
      ExitKeepsRows(w.rows, w.born, w.history, st, o.row.value, exit);
      ExitKeepsAnswers(w.history, w.pollers, st, exit);
    }
  }

  lemma PollerKeepsAnswers(history: map<State, seq<Event>>, pollers: map<nat, Poller>, id: nat, p: Poller)
    requires AnswersHold(history, pollers) && AnswerHolds(history, id, p)
    ensures AnswersHold(history, pollers[id := p])
  {
  }

  lemma NextKeepsAnswers(w: World, id: nat, p: Poller, rec: Option<Row>)
    requires RowsHold(w.rows, w.born, w.history) && AnswersHold(w.history, w.pollers)
    requires (p.pc.Ownership? || p.pc.Looping?) && p.response.None?
    requires rec == Find(w.rows, p.st)
    ensures AnswersHold(w.history, w.pollers[id := Next(p, rec)])
  {
    if rec.Some? {
      assert RowMatches(w.rows[p.st], w.history[p.st], w.born[p.st]);
    }
    PollerKeepsAnswers(w.history, w.pollers, id, Next(p, rec));
  }

  ghost predicate Stories(w: World) {
    RowsHold(w.rows, w.born, w.history) && AnswersHold(w.history, w.pollers)
  }

  lemma GetKeepsStories(w: World, id: nat, p: Poller, g: GetPc)
    requires Stories(w) && (p.pc.Ownership? || p.pc.Looping?) && p.response.None?
    ensures Stories(StepGet(w, id, p, g))
  {
    SilentExitKeepsStories(w, p.st);
    PollerKeepsAnswers(w.history, w.pollers, id, WithGet(p, Expire));
    PollerKeepsAnswers(w.history, w.pollers, id, WithGet(p, Reread));
    NextKeepsAnswers(w, id, p, Find(w.rows, p.st));
    var o := MarkExpired(w.rows, p.st, w.now);
    if o.row.Some? {
      NextKeepsAnswers(ExpireSilently(w, p.st), id, p, o.row);
    }
  }

  /** Taking a finished row: the collector's answer is the one the row's exit stored. */
  lemma TakenRowCompletesStory(h: seq<Event>, b: Birth, row: Row, id: nat)
    requires RowMatches(row, h, b) && !row.status.Pending?
    ensures Story(h + [Collected(id, row.status, row.result)], b)
    ensures var answer := if row.status.Completed? then Done(row.result) else Failed;
            TookRow(h + [Collected(id, row.status, row.result)], id, answer)
  {
    var full := h + [Collected(id, row.status, row.result)];
    assert full[..|full| - 1] == h;
    assert full[0] == h[0];
  }

  lemma CollectKeepsStories(w: World, id: nat, p: Poller)
    requires Stories(w) && p.pc.Collecting? && AnswerHolds(w.history, id, p)
    ensures Stories(StepCollect(w, id, p, p.pc.completed))
  {
    var o := TakeTerminal(w.rows, p.st, w.now);
    if o.row.None? {
      PollerKeepsAnswers(w.history, w.pollers, id, p.(pc := Looping(Read)));
    } else {
      var h := w.history[p.st];
      var row := w.rows[p.st];
      assert RowMatches(row, h, w.born[p.st]);
      TakenRowCompletesStory(h, w.born[p.st], row, id);
      var taken := h + [Collected(id, row.status, row.result)];
      assert h + ([] + [Collected(id, row.status, row.result)]) == taken;
      forall other | other in w.pollers
        ensures AnswerHolds(w.history[p.st := taken], other, w.pollers[other])
      {
        assert AnswerHolds(w.history, other, w.pollers[other]);
        assert taken[0] == h[0];
      }
      var p' := p.(pc := Leaving, response := Some(if p.pc.completed then Done(row.result) else Failed));
      PollerKeepsAnswers(w.history[p.st := taken], w.pollers, id, p');
    }
  }

  lemma CommitKeepsStories(w: World, id: nat, h: Handler)
    requires Stories(w)
    ensures Stories(Commit(w, id, h))
  {
    var o := Transition(w.rows, h, w.now);
    if o.row.Some? {
      assert RowMatches(w.rows[h.st], w.history[h.st], w.born[h.st]);
      var exit := ExitEvents(h, o.row.value, w.now);
      assert w.history[h.st] == [] && w.history[h.st] + exit == exit;
      assert ExitStory(exit, w.born[h.st]);
      ExitKeepsRows(w.rows, w.born, w.history, h.st, o.row.value, exit);
      ExitKeepsAnswers(w.history, w.pollers, h.st, exit);
    }
  }

  lemma SweepKeepsStories(w: World)
    requires Stories(w)
    ensures Stories(Sweep(w))
  {
    var w' := Sweep(w);
    forall st | st in w.born
      ensures Story(w'.history[st], w.born[st])
      ensures st in w.rows ==> RowMatches(w'.rows[st], w'.history[st], w.born[st])
      ensures st !in w.rows ==> w'.history[st] != []
      ensures w.history[st] != [] ==> w'.history[st] == w.history[st]
    {
      assert Story(w.history[st], w.born[st]);
      if st in w.rows {
        assert RowMatches(w.rows[st], w.history[st], w.born[st]);
      }
    }
    forall id | id in w'.pollers
      ensures AnswerHolds(w'.history, id, w'.pollers[id])
    {
      assert AnswerHolds(w.history, id, w.pollers[id]);
    }
  }

  lemma PollerStepKeepsStories(w: World, id: nat, p: Poller)
    requires Stories(w) && id in w.pollers && w.pollers[id] == p && StepPoller(w, id, p).Some?
    ensures Stories(StepPoller(w, id, p).value)
  {
    assert AnswerHolds(w.history, id, p);
    match p.pc
    case Ownership(g) => GetKeepsStories(w, id, p, g);
    case Subscribing => PollerKeepsAnswers(w.history, w.pollers, id, StepSubscribe(w, id, p).pollers[id]);
    case Looping(g) => GetKeepsStories(w, id, p, g);
    case Collecting(_) => CollectKeepsStories(w, id, p);
    case Parked => PollerKeepsAnswers(w.history, w.pollers, id, StepReceive(w, id, p).value.pollers[id]);
    case Leaving => PollerKeepsAnswers(w.history, w.pollers, id, StepLeave(w, id, p).pollers[id]);
    case Returned =>
  }

  lemma CreateKeepsStories(w: World, st: State, user: UserId, details: string, expiresAt: int)
    requires Stories(w) && StepCreate(w, st, user, details, expiresAt).Some?
    ensures Stories(StepCreate(w, st, user, details, expiresAt).value)
  {
    var w' := StepCreate(w, st, user, details, expiresAt).value;
    forall s | s in w'.born
      ensures Story(w'.history[s], w'.born[s])
      ensures s in w'.rows ==> RowMatches(w'.rows[s], w'.history[s], w'.born[s])
    {
      if s != st {
        assert Story(w.history[s], w.born[s]);
      }
    }
    forall id | id in w.pollers
      ensures AnswerHolds(w'.history, id, w.pollers[id])
    {
      assert AnswerHolds(w.history, id, w.pollers[id]);
    }
  }

  lemma StoriesKept(w: World, a: Action)
    requires Stories(w) && Step(w, a).Some?
    ensures Stories(Step(w, a).value)
  {
    match a
    case Tick(_) =>
    case Create(st, user, details, expiresAt) => CreateKeepsStories(w, st, user, details, expiresAt);
    case Poll(id, _, _) => PollerKeepsAnswers(w.history, w.pollers, id, Step(w, a).value.pollers[id]);
    case PollerStep(id) => PollerStepKeepsStories(w, id, w.pollers[id]);
    case Disconnect(id) => PollerKeepsAnswers(w.history, w.pollers, id, Step(w, a).value.pollers[id]);
    case PollerDbError(id) => PollerKeepsAnswers(w.history, w.pollers, id, Step(w, a).value.pollers[id]);
    case Handle(_, _, _, _) =>
    case HandlerStep(id) =>
      if w.handlers[id].pc.Begin? {
        CommitKeepsStories(w, id, w.handlers[id]);
      }
    case HandlerError(_) =>
    case LazyExpire(st) => SilentExitKeepsStories(w, st);
    case SweepExpired => SweepKeepsStories(w);
    case DeleteRow(st, cutoff) => 
    case CleanupRows(cutoff) =>
  }

  // ---------------------------------------------------------------------------
  // Channels
  // ---------------------------------------------------------------------------

  lemma PollerKeepsOwner(pollers: map<nat, Poller>, id: nat, p: Poller, st: State, c: nat)
    requires HasOwner(pollers, st, c)
    requires id in pollers && OwnsWatch(pollers[id], st, c) ==> OwnsWatch(p, st, c)
    ensures HasOwner(pollers[id := p], st, c)
  {
    var other :| other in pollers && OwnsWatch(pollers[other], st, c);
    assert OwnsWatch(pollers[id := p][other], st, c);
  }

  lemma PollerKeepsChannels(hub: Hub<nat>, made: nat, pollers: map<nat, Poller>, id: nat, p: Poller)
    requires ChannelsHold(hub, made, pollers)
    requires WatchHolds(p, made)
    requires id in pollers ==>
               p.watch == pollers[id].watch && p.st == pollers[id].st && (pollers[id].Live() ==> p.Live())
    requires id !in pollers ==> p.watch.None?
    ensures ChannelsHold(hub, made, pollers[id := p])
  {
    forall st | st in hub.subs
      ensures HasOwner(pollers[id := p], st, hub.subs[st])
    {
      PollerKeepsOwner(pollers, id, p, st, hub.subs[st]);
    }
  }

  lemma NewWatchIsUnshared(made: nat, pollers: map<nat, Poller>, id: nat, p: Poller)
    requires WatchesHold(pollers, made) && Unshared(pollers) && p.watch == Some(made)
    ensures Unshared(pollers[id := p])
  {
    forall other | other in pollers
      ensures !SameWatch(pollers[other], p) && !SameWatch(p, pollers[other])
    {
      assert WatchHolds(pollers[other], made);
    }
  }

  lemma SubscribeKeepsOwners(subs: map<State, nat>, pollers: map<nat, Poller>, id: nat, p: Poller, c: nat)
    requires OwnersHold(subs, pollers)
    requires id in pollers ==> !pollers[id].Live()
    requires OwnsWatch(p, p.st, c)
    ensures OwnersHold(subs[p.st := c], pollers[id := p])
  {
    var subs' := subs[p.st := c];
    forall st | st in subs'
      ensures HasOwner(pollers[id := p], st, subs'[st])
    {
      if st == p.st {
        assert OwnsWatch(pollers[id := p][id], st, c);
      } else {
        PollerKeepsOwner(pollers, id, p, st, subs[st]);
      }
    }
  }

  lemma SubscribeKeepsChannels(hub: Hub<nat>, made: nat, pollers: map<nat, Poller>, id: nat, p: Poller)
    requires ChannelsHold(hub, made, pollers) && id in pollers && pollers[id] == p && p.pc.Subscribing?
    ensures var moved := p.(pc := Looping(Read), watch := Some(made));
            ChannelsHold(Subscribe(hub, p.st, made), made + 1, pollers[id := moved])
  {
    var p' := p.(pc := Looping(Read), watch := Some(made));
    assert Unshared(pollers[id := p']) by {
      NewWatchIsUnshared(made, pollers, id, p');
    }
    assert WatchesHold(pollers[id := p'], made + 1);
    SubscribeIsDisciplined(hub, p.st, made);
    SubscribeKeepsOwners(hub.subs, pollers, id, p', made);
  }

  /** After its deferred unsubscribe a poller's own channel is closed, so nobody is left
      registered under a poller that has returned. */
  lemma LeaveKeepsChannels(hub: Hub<nat>, made: nat, pollers: map<nat, Poller>, id: nat, p: Poller)
    requires ChannelsHold(hub, made, pollers) && id in pollers && pollers[id] == p && p.pc.Leaving?
    ensures p.watch.Some?
    ensures ChannelsHold(Unsubscribe(hub, p.st, p.watch.value), made, pollers[id := p.(pc := Returned)])
  {
    assert WatchHolds(p, made);
    var c := p.watch.value;
    var hub' := Unsubscribe(hub, p.st, c);
    var p' := p.(pc := Returned);
    assert Disciplined(hub') by {
      UnsubscribeIsDisciplined(hub, p.st, c);
    }
    forall st | st in hub'.subs
      ensures HasOwner(pollers[id := p'], st, hub'.subs[st])
    {
      assert st in hub.subs && hub'.subs[st] == hub.subs[st];
      assert HasOwner(pollers, st, hub.subs[st]);
      PollerKeepsOwner(pollers, id, p', st, hub.subs[st]);
    }
    forall a, b | a in pollers && b in pollers && SameWatch(pollers[id := p'][a], pollers[id := p'][b])
      ensures a == b
    {
      assert SameWatch(pollers[a], pollers[b]);
    }
  }

  lemma NotifyKeepsChannels(hub: Hub<nat>, made: nat, pollers: map<nat, Poller>, st: State)
    requires ChannelsHold(hub, made, pollers)
    ensures ChannelsHold(Notify(hub, st), made, pollers)
  {
    NotifyIsDisciplined(hub, st);
  }

  lemma ReceiveKeepsChannels(hub: Hub<nat>, made: nat, pollers: map<nat, Poller>, c: nat)
    requires ChannelsHold(hub, made, pollers) && c in hub.chans && hub.chans[c].full
    ensures ChannelsHold(hub.(chans := hub.chans[c := hub.chans[c].(full := false)]), made, pollers)
  {
  }

  ghost predicate Channels(w: World) {
    ChannelsHold(w.hub, w.made, w.pollers)
  }

  /** The poller a `GetRequest` step moves keeps its channel and its request. */
  lemma GetMovesItsPoller(w: World, id: nat, p: Poller, g: GetPc)
    requires p.pc == Ownership(g) || p.pc == Looping(g)
    ensures var base := if g.Expire? then ExpireSilently(w, p.st) else w;
            var w' := StepGet(w, id, p, g);
            && id in w'.pollers && w' == GoPoller(base, id, w'.pollers[id])
            && var p' := w'.pollers[id];
               && p'.st == p.st && p'.watch == p.watch
               && (p.pc.Ownership? ==> !p'.Live() && !p'.pc.Parked?)
               && (p.pc.Looping? ==> p'.Live())
               && (p'.pc.Parked? ==> IsPending(base, p.st))
  {
  }

  lemma GetKeepsChannels(w: World, id: nat, p: Poller, g: GetPc)
    requires Channels(w) && id in w.pollers && w.pollers[id] == p
    requires p.pc == Ownership(g) || p.pc == Looping(g)
    ensures Channels(StepGet(w, id, p, g))
  {
    GetMovesItsPoller(w, id, p, g);
    assert WatchHolds(p, w.made);
    PollerKeepsChannels(w.hub, w.made, w.pollers, id, StepGet(w, id, p, g).pollers[id]);
  }

  lemma ParkedKeepsChannels(w: World, id: nat, p: Poller)
    requires Channels(w) && id in w.pollers && w.pollers[id] == p && p.pc.Parked? && StepReceive(w, id, p).Some?
    ensures Channels(StepReceive(w, id, p).value)
  {
    var w' := StepReceive(w, id, p).value;
    assert WatchHolds(p, w.made);
    PollerKeepsChannels(w.hub, w.made, w.pollers, id, w'.pollers[id]);
    if w.hub.chans[p.watch.value].full {
      ReceiveKeepsChannels(w.hub, w.made, w'.pollers, p.watch.value);
    }
  }

  lemma PollerStepKeepsChannels(w: World, id: nat, p: Poller)
    requires Channels(w) && id in w.pollers && w.pollers[id] == p && StepPoller(w, id, p).Some?
    ensures Channels(StepPoller(w, id, p).value)
  {
    match p.pc
    case Ownership(g) => GetKeepsChannels(w, id, p, g);
    case Subscribing => SubscribeKeepsChannels(w.hub, w.made, w.pollers, id, p);
    case Looping(g) => GetKeepsChannels(w, id, p, g);
    case Collecting(_) =>
      assert WatchHolds(p, w.made);
      PollerKeepsChannels(w.hub, w.made, w.pollers, id, StepPoller(w, id, p).value.pollers[id]);
    case Parked => ParkedKeepsChannels(w, id, p);
    case Leaving => LeaveKeepsChannels(w.hub, w.made, w.pollers, id, p);
    case Returned =>
  }

  lemma ChannelsKept(w: World, a: Action)
    requires Channels(w) && Step(w, a).Some?
    ensures Channels(Step(w, a).value)
  {
    match a
    case Poll(id, st, user) =>
      PollerKeepsChannels(w.hub, w.made, w.pollers, id, Poller(st, user, Ownership(Read), None, None));
    case PollerStep(id) => PollerStepKeepsChannels(w, id, w.pollers[id]);
    case Disconnect(id) => QuitKeepsChannels(w, id, w.pollers[id].(pc := Leaving, response := Some(StillPending)));
    case PollerDbError(id) => QuitKeepsChannels(w, id, StepPollerError(w, id, w.pollers[id]).value.pollers[id]);
    case HandlerStep(id) => HandlerStepKeepsChannels(w, id, w.handlers[id]);
    case _ =>
  }

  lemma QuitKeepsChannels(w: World, id: nat, p: Poller)
    requires Channels(w) && id in w.pollers
    requires p == w.pollers[id].(pc := p.pc, response := p.response)
    requires w.pollers[id].Live() ==> p.Live()
    requires !w.pollers[id].Live() ==> p.pc.Returned?
    ensures Channels(GoPoller(w, id, p))
  {
    assert WatchHolds(w.pollers[id], w.made);
    PollerKeepsChannels(w.hub, w.made, w.pollers, id, p);
  }

  lemma HandlerStepKeepsChannels(w: World, id: nat, h: Handler)
    requires Channels(w) && StepHandler(w, id, h).Some?
    ensures Channels(StepHandler(w, id, h).value)
  {
    if h.pc.Notifying? {
      NotifyKeepsChannels(w.hub, w.made, w.pollers, h.st);
    }
  }

  // ---------------------------------------------------------------------------
  // Wakeups
  // ---------------------------------------------------------------------------

  ghost predicate Wakeups(w: World) {
    DebtsHold(w) && WakeupsHold(w)
  }

  /** Rows that are pending afterwards were pending before: only a creation adds one. */
  ghost predicate NoNewPending(w: World, w': World) {
    forall st :: st in w.born && IsPending(w', st) ==> IsPending(w, st)
  }

  /** Whoever was blocked on a row that has now left `pending` is still covered. */
  lemma CoverKeepsWakeups(w: World, w': World)
    requires Wakeups(w)
    requires w'.born == w.born && w'.hub == w.hub && w'.pollers == w.pollers
    requires NoNewPending(w, w') && w.silent <= w'.silent
    requires forall st :: Owed(w.handlers, st) ==> Owed(w'.handlers, st) || st in w'.silent
    requires forall st :: IsPending(w, st) && !IsPending(w', st) ==> Owed(w'.handlers, st) || st in w'.silent
    ensures WakeupsHold(w')
  {
    forall id | id in w'.pollers
      ensures WakeupHolds(w', w'.pollers[id])
    {
      assert WakeupHolds(w, w.pollers[id]);
    }
  }

  lemma PollerKeepsWakeups(w: World, id: nat, p: Poller)
    requires Wakeups(w) && WakeupHolds(w, p)
    ensures Wakeups(GoPoller(w, id, p))
  {
  }

  /** The same debts over rows that have only left `pending`, some of them silently. */
  lemma CoverKeepsDebts(w: World, w': World)
    requires DebtsHold(w)
    requires w'.born == w.born && w'.handlers == w.handlers
    requires NoNewPending(w, w')
    requires forall st :: st in w'.silent ==> st in w.silent || (st in w.born && IsPending(w, st) && !IsPending(w', st))
    ensures DebtsHold(w')
  {
  }

  lemma SilentExitKeepsWakeups(w: World, st: State)
    requires Stories(w) && Wakeups(w)
    ensures Wakeups(ExpireSilently(w, st))
    ensures NoNewPending(w, ExpireSilently(w, st))
  {
    var w' := ExpireSilently(w, st);
    CoverKeepsDebts(w, w');
    CoverKeepsWakeups(w, w');
  }

  lemma SweepKeepsWakeups(w: World)
    requires Stories(w) && Wakeups(w)
    ensures Wakeups(Sweep(w))
  {
    var w' := Sweep(w);
    CoverKeepsDebts(w, w');
    CoverKeepsWakeups(w, w');
  }

  /** Deleting finished rows neither creates nor settles a debt. */
  lemma DeletionKeepsWakeups(w: World, w': World)
    requires Wakeups(w) && w' == w.(rows := w'.rows)
    requires forall st :: IsPending(w', st) <==> IsPending(w, st)
    ensures Wakeups(w')
  {
    CoverKeepsDebts(w, w');
    CoverKeepsWakeups(w, w');
  }

  lemma GetKeepsWakeups(w: World, id: nat, p: Poller, g: GetPc)
    requires Stories(w) && Wakeups(w) && id in w.pollers && w.pollers[id] == p
    requires p.pc == Ownership(g) || p.pc == Looping(g)
    ensures Wakeups(StepGet(w, id, p, g))
  {
    GetMovesItsPoller(w, id, p, g);
    var p' := StepGet(w, id, p, g).pollers[id];
    if g.Expire? {
      SilentExitKeepsWakeups(w, p.st);
      PollerKeepsWakeups(ExpireSilently(w, p.st), id, p');
    } else {
      PollerKeepsWakeups(w, id, p');
    }
  }

  /** Only a finished row is ever read as finished, so the collecting statement never meets a
      pending one. */
  lemma CollectingIsFinished(w: World, id: nat, p: Poller)
    requires Stories(w) && AnswerHolds(w.history, id, p) && p.pc.Collecting?
    ensures !IsPending(w, p.st)
  {
    assert p.st in w.rows ==> RowMatches(w.rows[p.st], w.history[p.st], w.born[p.st]);
  }

  lemma HistoryKeepsWakeups(w: World, history: map<State, seq<Event>>)
    requires Wakeups(w)
    ensures Wakeups(w.(history := history))
  {
    assert forall id :: id in w.pollers && WakeupHolds(w, w.pollers[id]) ==>
             WakeupHolds(w.(history := history), w.pollers[id]);
  }

  lemma CollectKeepsWakeups(w: World, id: nat, p: Poller)
    requires Stories(w) && Wakeups(w) && id in w.pollers && w.pollers[id] == p && p.pc.Collecting?
    ensures Wakeups(StepCollect(w, id, p, p.pc.completed))
  {
    assert !IsPending(w, p.st) by {
      assert AnswerHolds(w.history, id, p);
      CollectingIsFinished(w, id, p);
    }
    var w' := StepCollect(w, id, p, p.pc.completed);
    var mid := w.(rows := w'.rows);
    assert forall st :: IsPending(mid, st) <==> IsPending(w, st);
    DeletionKeepsWakeups(w, mid);
    assert WakeupHolds(mid, w'.pollers[id]);
    PollerKeepsWakeups(mid, id, w'.pollers[id]);
    HistoryKeepsWakeups(GoPoller(mid, id, w'.pollers[id]), w'.history);
    assert w' == GoPoller(mid, id, w'.pollers[id]).(history := w'.history);
  }

  /** Channel operations only ever unblock the pollers that existed before them. */
  lemma HubKeepsWakeups(w: World, w': World)
    requires Wakeups(w) && WatchesHold(w.pollers, w.made)
    requires w' == w.(hub := w'.hub, made := w'.made)
    requires forall c: nat :: c < w.made && c in w'.hub.chans && w'.hub.chans[c] == ChanState(true, false) ==>
               c in w.hub.chans && w.hub.chans[c] == ChanState(true, false)
    ensures Wakeups(w')
  {
    forall id | id in w'.pollers
      ensures WakeupHolds(w', w'.pollers[id])
    {
      assert WakeupHolds(w, w.pollers[id]) && WatchHolds(w.pollers[id], w.made);
    }
  }

  lemma SubscribeKeepsWakeups(w: World, id: nat, p: Poller)
    requires Channels(w) && Wakeups(w) && id in w.pollers && w.pollers[id] == p && p.pc.Subscribing?
    ensures Wakeups(StepSubscribe(w, id, p))
  {
    var mid := w.(hub := Subscribe(w.hub, p.st, w.made), made := w.made + 1);
    assert Wakeups(mid) by {
      SubscribeIsDisciplined(w.hub, p.st, w.made);
      HubKeepsWakeups(w, mid);
    }
    PollerKeepsWakeups(mid, id, p.(pc := Looping(Read), watch := Some(w.made)));
  }

  lemma LeaveKeepsWakeups(w: World, id: nat, p: Poller)
    requires Channels(w) && Wakeups(w) && id in w.pollers && w.pollers[id] == p && p.pc.Leaving?
    ensures Wakeups(StepLeave(w, id, p))
  {
    assert WatchHolds(p, w.made);
    var mid := w.(hub := Unsubscribe(w.hub, p.st, p.watch.value));
    assert Wakeups(mid) by {
      UnsubscribeIsDisciplined(w.hub, p.st, p.watch.value);
      HubKeepsWakeups(w, mid);
    }
    PollerKeepsWakeups(mid, id, p.(pc := Returned));
  }

  lemma ReceiveKeepsWakeups(w: World, id: nat, p: Poller)
    requires Channels(w) && Wakeups(w) && id in w.pollers && w.pollers[id] == p && p.pc.Parked?
    requires StepReceive(w, id, p).Some?
    ensures Wakeups(StepReceive(w, id, p).value)
  {
    var w' := StepReceive(w, id, p).value;
    var mid := w.(hub := w'.hub);
    assert Wakeups(mid) by {
      var c := p.watch.value;
      assert w.hub.chans[c].full ==> !w.hub.chans[c].open;
      HubKeepsWakeups(w, mid);
    }
    PollerKeepsWakeups(mid, id, w'.pollers[id]);
  }

  lemma PollerStepKeepsWakeups(w: World, id: nat, p: Poller)
    requires Stories(w) && Channels(w) && Wakeups(w)
    requires id in w.pollers && w.pollers[id] == p && StepPoller(w, id, p).Some?
    ensures Wakeups(StepPoller(w, id, p).value)
  {
    match p.pc
    case Ownership(g) => GetKeepsWakeups(w, id, p, g);
    case Subscribing => SubscribeKeepsWakeups(w, id, p);
    case Looping(g) => GetKeepsWakeups(w, id, p, g);
    case Collecting(_) => CollectKeepsWakeups(w, id, p);
    case Parked => ReceiveKeepsWakeups(w, id, p);
    case Leaving => LeaveKeepsWakeups(w, id, p);
    case Returned =>
  }

  // Handlers

  /** A handler that owes nothing before and after. */
  lemma IdleHandlerKeepsWakeups(w: World, id: nat, h: Handler)
    requires Wakeups(w) && !h.OwesNotify() && (id in w.handlers ==> !w.handlers[id].OwesNotify())
    ensures Wakeups(GoHandler(w, id, h))
  {
    var w' := GoHandler(w, id, h);
    forall st | Owed(w.handlers, st)
      ensures Owed(w'.handlers, st)
    {
      var other :| other in w.handlers && w.handlers[other].OwesNotify() && w.handlers[other].st == st;
      assert other in w'.handlers && w'.handlers[other] == w.handlers[other];
    }
    CoverKeepsWakeups(w, w');
  }

  /** Taking on the debt for the one request that just left `pending`. */
  lemma NewDebtKeepsWakeups(w: World, w': World, id: nat)
    requires Wakeups(w) && id in w.handlers && !w.handlers[id].OwesNotify()
    requires id in w'.handlers && w'.handlers == w.handlers[id := w'.handlers[id]] && w'.handlers[id].OwesNotify()
    requires w'.born == w.born && w'.hub == w.hub && w'.pollers == w.pollers && w'.silent == w.silent
    requires var st := w'.handlers[id].st;
             && st in w.born && IsPending(w, st) && !IsPending(w', st)
             && forall s :: s != st ==> (IsPending(w', s) <==> IsPending(w, s))
    ensures Wakeups(w')
  {
    forall st | Owed(w.handlers, st)
      ensures Owed(w'.handlers, st)
    {
      var other :| other in w.handlers && w.handlers[other].OwesNotify() && w.handlers[other].st == st;
      assert other in w'.handlers && w'.handlers[other] == w.handlers[other];
    }
    assert Owed(w'.handlers, w'.handlers[id].st);
    CoverKeepsWakeups(w, w');
  }

  lemma CommitKeepsWakeups(w: World, id: nat, h: Handler)
    requires Stories(w) && Wakeups(w) && id in w.handlers && w.handlers[id] == h && h.pc.Begin?
    ensures Wakeups(Commit(w, id, h))
  {
    var o := Transition(w.rows, h, w.now);
    if o.row.Some? {
      NewDebtKeepsWakeups(w, Commit(w, id, h), id);
    } else {
      IdleHandlerKeepsWakeups(w, id, h.(pc := Finished));
    }
  }

  /** Dropping the debt is safe once the channel registered for the request is closed, or the
      request is recorded as silent. */
  lemma SettleKeepsWakeups(w: World, id: nat, w': World)
    requires Channels(w) && Wakeups(w) && id in w.handlers && w.handlers[id].OwesNotify()
    requires id in w'.handlers
    requires w' == w.(hub := w'.hub, silent := w'.silent, handlers := w.handlers[id := w'.handlers[id]])
    requires w'.handlers[id] == w.handlers[id].(pc := w'.handlers[id].pc) && !w'.handlers[id].OwesNotify()
    requires || (w'.hub == w.hub && w'.silent == w.silent + {w.handlers[id].st})
             || (w'.hub == Notify(w.hub, w.handlers[id].st) && w'.silent == w.silent)
    ensures Wakeups(w')
  {
    var st := w.handlers[id].st;
    NotifyIsDisciplined(w.hub, st);
    forall other | other in w'.pollers
      ensures WakeupHolds(w', w'.pollers[other])
    {
      var p := w.pollers[other];
      assert WakeupHolds(w, p) && WatchHolds(p, w.made);
      if Blocked(w'.hub, p) && !IsPending(w, p.st) && p.st !in w'.silent {
        var debtor :| debtor in w.handlers && w.handlers[debtor].OwesNotify() && w.handlers[debtor].st == p.st;
        if debtor == id {
          BlockedIsRegistered(w, other);
          assert false;
        }
        assert debtor in w'.handlers && w'.handlers[debtor] == w.handlers[debtor];
      }
    }
  }

  /** An open channel is the one registered for its poller's own request. */
  lemma BlockedIsRegistered(w: World, id: nat)
    requires Channels(w) && id in w.pollers && Blocked(w.hub, w.pollers[id])
    ensures w.pollers[id].st in w.hub.subs && w.hub.subs[w.pollers[id].st] == w.pollers[id].watch.value
  {
    var c := w.pollers[id].watch.value;
    var st :| st in w.hub.subs && w.hub.subs[st] == c;
    assert HasOwner(w.pollers, st, c);
    var owner :| owner in w.pollers && OwnsWatch(w.pollers[owner], st, c);
    assert SameWatch(w.pollers[owner], w.pollers[id]);
  }

  lemma DequeuedKeepsWakeups(w: World, id: nat, h: Handler)
    requires Wakeups(w) && id in w.handlers && w.handlers[id] == h && h.pc.Dequeuing?
    ensures Wakeups(GoHandler(w, id, h.(pc := Notifying)))
  {
    var w' := GoHandler(w, id, h.(pc := Notifying));
    forall st | Owed(w.handlers, st)
      ensures Owed(w'.handlers, st)
    {
      var other :| other in w.handlers && w.handlers[other].OwesNotify() && w.handlers[other].st == st;
      assert other in w'.handlers && w'.handlers[other].OwesNotify() && w'.handlers[other].st == st;
    }
    CoverKeepsWakeups(w, w');
  }

  lemma HandlerStepKeepsWakeups(w: World, id: nat, h: Handler)
    requires Stories(w) && Channels(w) && Wakeups(w)
    requires id in w.handlers && w.handlers[id] == h && StepHandler(w, id, h).Some?
    ensures Wakeups(StepHandler(w, id, h).value)
  {
    match h.pc
    case Begin => CommitKeepsWakeups(w, id, h);
    case Dequeuing => DequeuedKeepsWakeups(w, id, h);
    case Notifying => SettleKeepsWakeups(w, id, StepHandler(w, id, h).value);
    case Publishing => IdleHandlerKeepsWakeups(w, id, h.(pc := Finished));
    case Finished =>
  }

  lemma CreateKeepsWakeups(w: World, st: State, user: UserId, details: string, expiresAt: int)
    requires Stories(w) && Wakeups(w) && StepCreate(w, st, user, details, expiresAt).Some?
    ensures Wakeups(StepCreate(w, st, user, details, expiresAt).value)
  {
    var w' := StepCreate(w, st, user, details, expiresAt).value;
    assert forall s :: s in w.born ==> (IsPending(w', s) <==> IsPending(w, s));
    assert DebtsHold(w');
    forall id | id in w'.pollers
      ensures WakeupHolds(w', w'.pollers[id])
    {
      assert WakeupHolds(w, w.pollers[id]);
      assert Blocked(w'.hub, w.pollers[id]) ==> w.pollers[id].st in w.born;
    }
  }

  lemma HandlerErrorKeepsWakeups(w: World, id: nat)
    requires Stories(w) && Channels(w) && Wakeups(w) && Step(w, HandlerError(id)).Some?
    ensures Wakeups(Step(w, HandlerError(id)).value)
  {
    if w.handlers[id].pc.Begin? {
      IdleHandlerKeepsWakeups(w, id, w.handlers[id].(pc := Finished));
    } else {
      SettleKeepsWakeups(w, id, Step(w, HandlerError(id)).value);
    }
  }

  lemma ActorKeepsWakeups(w: World, a: Action)
    requires Stories(w) && Channels(w) && Wakeups(w) && Step(w, a).Some?
    requires a.PollerStep? || a.HandlerStep? || a.HandlerError? || a.Disconnect? || a.PollerDbError?
    ensures Wakeups(Step(w, a).value)
  {
    match a
    case PollerStep(id) => PollerStepKeepsWakeups(w, id, w.pollers[id]);
    case HandlerStep(id) => HandlerStepKeepsWakeups(w, id, w.handlers[id]);
    case HandlerError(id) => HandlerErrorKeepsWakeups(w, id);
    case Disconnect(id) => PollerKeepsWakeups(w, id, Step(w, a).value.pollers[id]);
    case PollerDbError(id) => PollerKeepsWakeups(w, id, Step(w, a).value.pollers[id]);
  }

  lemma WakeupsKept(w: World, a: Action)
    requires Stories(w) && Channels(w) && Wakeups(w) && Step(w, a).Some?
    ensures Wakeups(Step(w, a).value)
  {
    match a
    case Tick(nanos) => CoverKeepsWakeups(w, w.(now := w.now + nanos));
    case Create(st, user, details, expiresAt) => CreateKeepsWakeups(w, st, user, details, expiresAt);
    case Poll(id, st, user) => PollerKeepsWakeups(w, id, Poller(st, user, Ownership(Read), None, None));
    case Handle(id, kind, st, user) => IdleHandlerKeepsWakeups(w, id, Handler(kind, st, user, Begin));
    case LazyExpire(st) => SilentExitKeepsWakeups(w, st);
    case SweepExpired => SweepKeepsWakeups(w);
    case DeleteRow(st, cutoff) => DeletionKeepsWakeups(w, w.(rows := DeleteTerminal(w.rows, st, cutoff)));
    case CleanupRows(before) => DeletionKeepsWakeups(w, w.(rows := CleanupOld(w.rows, before)));
    case _ => ActorKeepsWakeups(w, a);
  }
}
