/** The live list of pending requests: a snapshot merged with broker messages.

    One user's stream is followed through arbitrary interleavings with request creation,
    completion, cancellation, expiry and publishing. Flags record how the run departed from
    the ideal: a creation that failed before publishing, an exit nobody published, an item
    published after its removal, an item or a removal that a full queue dropped. */
module ListStream {
  import opened Prelude
  import opened Requests
  import opened Broker

  datatype Msg = Msg(st: State, user: UserId, removed: bool)

  // ---------------------------------------------------------------------------
  // The stream's own loop
  // ---------------------------------------------------------------------------

  /** What one message does to the set of requests on the user's screen. */
  function Merge(user: UserId, seen: set<State>, m: Msg): set<State> {
    if m.user == "" || m.user != user then seen
    else if m.removed then seen - {m.st}
    else seen + {m.st}
  }

  function MergeAll(user: UserId, seen: set<State>, queue: seq<Msg>): set<State>
    decreases |queue|
  {
    if queue == [] then seen else MergeAll(user, Merge(user, seen, queue[0]), queue[1..])
  }

  /** The lines written for one message: none for somebody else's or for an item already sent. */
  function Forward(user: UserId, seen: set<State>, m: Msg): seq<Msg> {
    if m.user == "" || m.user != user || (m.st in seen && !m.removed) then [] else [m]
  }

  /** The browser's side: an item is set, a removal is deleted. */
  function Render(items: set<State>, m: Msg): set<State> {
    if m.removed then items - {m.st} else items + {m.st}
  }

  function RenderAll(items: set<State>, lines: seq<Msg>): set<State> {
    if lines == [] then items
    else Render(RenderAll(items, lines[..|lines| - 1]), lines[|lines| - 1])
  }

  lemma RenderedForwardIsMerge(user: UserId, seen: set<State>, m: Msg)
    ensures RenderAll(seen, Forward(user, seen, m)) == Merge(user, seen, m)
  {
    assert RenderAll(seen, [m]) == Render(RenderAll(seen, [m][..0]), m);
  }

  /** Line `k` is the user's, and a removal or an item not on the screen. */
  predicate Fresh(user: UserId, items: set<State>, lines: seq<Msg>, k: nat)
    requires k < |lines|
  {
    lines[k].user == user && (lines[k].removed || lines[k].st !in RenderAll(items, lines[..k]))
  }

  lemma FreshAppends(user: UserId, items: set<State>, lines: seq<Msg>, more: seq<Msg>)
    requires forall k :: 0 <= k < |lines| ==> Fresh(user, items, lines, k)
    requires |more| <= 1
    requires more != [] ==> more[0].user == user && (more[0].removed || more[0].st !in RenderAll(items, lines))
    ensures forall k :: 0 <= k < |lines + more| ==> Fresh(user, items, lines + more, k)
  {
    forall k | 0 <= k < |lines + more| ensures Fresh(user, items, lines + more, k) {
      if k < |lines| {
        assert Fresh(user, items, lines, k);
        assert (lines + more)[..k] == lines[..k];
      } else {
        assert (lines + more)[..k] == lines;
      }
    }
  }

  class Stream {
    const user: UserId
    var seen: set<State>
    var lines: seq<Msg>

    constructor (user: UserId, list: set<State>)
      ensures this.user == user && seen == list && lines == []
    {
      this.user := user;
      seen := list;
      lines := [];
    }

    /** One broker message: filtered by owner, de-duplicated, recorded and passed on. */
    method Receive(m: Msg)
      modifies this
      ensures seen == Merge(user, old(seen), m)
      ensures lines == old(lines) + Forward(user, old(seen), m)
      ensures m.user == user && user != "" && (m.removed || m.st !in old(seen)) ==> lines == old(lines) + [m]
      ensures m.user != user || user == "" || (!m.removed && m.st in old(seen)) ==> lines == old(lines)
    {
      if m.user == "" || m.user != user {
        return;
      }
      var alreadySeen := m.st in seen;
      if alreadySeen && !m.removed {
        return;
      }
      seen := seen + {m.st};
      if m.removed {
        seen := seen - {m.st};
      }
      lines := lines + [m];
    }

    /** Drains whatever the subscription delivers until it is closed. What the browser has
        rendered from the snapshot and the lines is then exactly `seen`; every line is the user's
        own, and none sends an item that the browser has. */
    method Run(events: seq<Msg>)
      requires lines == []
      modifies this
      ensures seen == MergeAll(user, old(seen), events)
      ensures RenderAll(old(seen), lines) == seen
      ensures forall k :: 0 <= k < |lines| ==> Fresh(user, old(seen), lines, k)
    {
      var i := 0;
      while i < |events|
        invariant 0 <= i <= |events|
        invariant MergeAll(user, seen, events[i..]) == MergeAll(user, old(seen), events)
        invariant RenderAll(old(seen), lines) == seen
        invariant forall k :: 0 <= k < |lines| ==> Fresh(user, old(seen), lines, k)
      {
        FreshAppends(user, old(seen), lines, Forward(user, seen, events[i]));
        RenderAppends(old(seen), lines, Forward(user, seen, events[i]));
        RenderedForwardIsMerge(user, seen, events[i]);
        Receive(events[i]);
        assert events[i..][1..] == events[i + 1..];
        i := i + 1;
      }
    }
  }

  lemma {:induction false} RenderAppends(items: set<State>, a: seq<Msg>, b: seq<Msg>)
    ensures RenderAll(items, a + b) == RenderAll(RenderAll(items, a), b)
  {
    if b == [] {
      assert a + b == a;
    } else {
      var n := |b| - 1;
      assert (a + b)[..|a + b| - 1] == a + b[..n];
      RenderAppends(items, a, b[..n]);
    }
  }

  /** Messages act on each request separately: membership depends only on that request. */
  lemma {:induction false} MergeIsPointwise(user: UserId, a: set<State>, b: set<State>, queue: seq<Msg>, st: State)
    requires st in a <==> st in b
    ensures st in MergeAll(user, a, queue) <==> st in MergeAll(user, b, queue)
    decreases |queue|
  {
    if queue != [] {
      MergeIsPointwise(user, Merge(user, a, queue[0]), Merge(user, b, queue[0]), queue[1..], st);
    }
  }

  lemma {:induction false} MergeAppends(user: UserId, seen: set<State>, queue: seq<Msg>, m: Msg)
    ensures MergeAll(user, seen, queue + [m]) == Merge(user, MergeAll(user, seen, queue), m)
    decreases |queue|
  {
    if queue == [] {
      assert (queue + [m])[1..] == [];
    } else {
      assert (queue + [m])[1..] == queue[1..] + [m];
      MergeAppends(user, Merge(user, seen, queue[0]), queue[1..], m);
    }
  }

  lemma {:induction false} MergeIgnores(user: UserId, seen: set<State>, queue: seq<Msg>, st: State)
    requires forall m :: m in queue ==> m.st != st
    ensures st in MergeAll(user, seen, queue) <==> st in seen
    decreases |queue|
  {
    if queue != [] {
      assert queue[0] in queue;
      MergeIgnores(user, Merge(user, seen, queue[0]), queue[1..], st);
    }
  }

  /** A request nothing in the queue removes stays on the list. */
  lemma {:induction false} MergeKeeps(user: UserId, seen: set<State>, queue: seq<Msg>, st: State)
    requires st in seen && forall m :: m in queue ==> !(m.st == st && m.removed)
    ensures st in MergeAll(user, seen, queue)
    decreases |queue|
  {
    if queue != [] {
      assert queue[0] in queue;
      MergeKeeps(user, Merge(user, seen, queue[0]), queue[1..], st);
    }
  }

  // ---------------------------------------------------------------------------
  // The system around it
  // ---------------------------------------------------------------------------

  datatype Phase = Idle | Subscribed | Streaming

  datatype World = World(
    now: nat,
    rows: Table,
    owner: map<State, UserId>,
    oweItem: set<State>,
    muted: set<State>,
    oweRemoved: set<State>,
    removedSent: set<State>,
    silent: set<State>,
    phase: Phase,
    queue: seq<Msg>,
    seen: set<State>,
    offered: set<State>,
    late: set<State>,
    lostItems: set<State>,
    lostRemovals: set<State>)

  datatype Exit = Completion(user: UserId, env: Envelope) | Cancellation(user: UserId) | Expiry

  datatype Action =
    | Tick(nanos: nat)
    | Create(st: State, user: UserId, expiresAt: int)
    | PublishItem(st: State)
    | CreatorFails(st: State)
    | Leave(st: State, exit: Exit)
    | PublishRemoved(st: State)
    | HandlerFails(st: State)
    | LazyExpire(st: State)
    | Sweep
    | Delete(st: State)
    | OpenStream
    | ListRows
    | Receive

  const START: World := World(0, map[], map[], {}, {}, {}, {}, {}, Idle, [], {}, {}, {}, {}, {})

  function Execute(rows: Table, st: State, exit: Exit, now: nat): Outcome {
    match exit
    case Completion(user, env) => Complete(rows, st, user, env, now)
    case Cancellation(user) => Cancel(rows, st, user, now)
    case Expiry => MarkExpired(rows, st, now)
  }

  predicate Full(w: World) {
    |w.queue| >= CAPACITY
  }

  /** An item is published: the stream gets it when it is subscribed and its queue has room. */
  function DeliverItem(w: World, st: State, owner: UserId): World {
    if w.phase.Idle? then w
    else if Full(w) then w.(queue := Offer(w.queue, Msg(st, owner, false)), lostItems := w.lostItems + {st})
    else w.(queue := Offer(w.queue, Msg(st, owner, false)), offered := w.offered + {st},
            late := if st in w.removedSent then w.late + {st} else w.late)
  }

  /** Likewise for a removal. */
  function DeliverRemoval(w: World, st: State, owner: UserId): World {
    if w.phase.Idle? then w
    else w.(queue := Offer(w.queue, Msg(st, owner, true)),
            lostRemovals := if Full(w) then w.lostRemovals + {st} else w.lostRemovals)
  }

  function Overdues(w: World): set<State> {
    set st | st in w.rows && Overdue(w.rows[st], w.now)
  }

  function SweepRows(w: World): World {
    w.(rows := ExpirePending(w.rows, w.now), silent := w.silent + Overdues(w))
  }

  function Step(w: World, user: UserId, a: Action): Option<World> {
    match a
    case Tick(nanos) => Some(w.(now := w.now + nanos))
    case Create(st, owner, expiresAt) =>
      if st in w.owner || st in w.rows then None
      else
        var row := Row(Pending, owner, "", Unix(w.now), expiresAt, Unix(w.now), None);
        Some(w.(rows := w.rows[st := row], owner := w.owner[st := owner], oweItem := w.oweItem + {st}))
    case PublishItem(st) =>
      if st !in w.oweItem || st !in w.owner then None
      else Some(DeliverItem(w.(oweItem := w.oweItem - {st}), st, w.owner[st]))
    case CreatorFails(st) =>
      if st in w.oweItem then Some(w.(oweItem := w.oweItem - {st}, muted := w.muted + {st})) else None
    case Leave(st, exit) =>
      var o := Execute(w.rows, st, exit, w.now);
      if o.row.None? then Some(w) else Some(w.(rows := o.table, oweRemoved := w.oweRemoved + {st}))
    case PublishRemoved(st) =>
      if st !in w.oweRemoved || st !in w.owner then None
      else
        var sent := w.(oweRemoved := w.oweRemoved - {st}, removedSent := w.removedSent + {st});
        Some(DeliverRemoval(sent, st, w.owner[st]))
    case HandlerFails(st) =>
      if st in w.oweRemoved then Some(w.(oweRemoved := w.oweRemoved - {st}, silent := w.silent + {st})) else None
    case LazyExpire(st) =>
      var o := MarkExpired(w.rows, st, w.now);
      if o.row.None? then Some(w) else Some(w.(rows := o.table, silent := w.silent + {st}))
    case Sweep => Some(SweepRows(w))
    case Delete(st) => Some(w.(rows := DeleteTerminal(w.rows, st, None)))
    case OpenStream => if w.phase.Idle? then Some(w.(phase := Subscribed)) else None
    case ListRows =>
      if !w.phase.Subscribed? then None
      else
        var list := PendingOf(w.rows, user);
        Some(w.(phase := Streaming, seen := list, offered := w.offered + list))
    case Receive =>
      if !w.phase.Streaming? || w.queue == [] then None
      else Some(w.(queue := w.queue[1..], seen := Merge(user, w.seen, w.queue[0])))
  }

  function Exec(user: UserId, run: seq<Action>): Option<World> {
    if run == [] then Some(START)
    else
      var before := Exec(user, run[..|run| - 1]);
      if before.None? then None else Step(before.value, user, run[|run| - 1])
  }

  predicate IsPending(w: World, st: State) {
    st in w.rows && w.rows[st].status.Pending?
  }

  /** Every request is in one place: pending, or finished with its removal owed, published or lost. */
  ghost predicate Placed(w: World, st: State) {
    && (st in w.rows ==> st in w.owner && w.rows[st].userId == w.owner[st])
    && (IsPending(w, st) ==> st !in w.oweRemoved && st !in w.removedSent && st !in w.silent)
    && (st in w.owner && !IsPending(w, st) ==> st in w.oweRemoved || st in w.removedSent || st in w.silent)
    && (st in w.oweRemoved ==> st in w.owner && st !in w.removedSent && st !in w.silent)
    && (st in w.removedSent ==> st in w.owner && st !in w.silent)
    && (st in w.silent || st in w.oweItem || st in w.offered ==> st in w.owner)
    && (st in w.late ==> st in w.removedSent && st in w.offered)
    && (st in w.lostItems ==> st in w.owner)
    && (st in w.lostRemovals ==> st in w.removedSent)
    && (w.phase.Idle? ==> st !in w.offered)
  }

  /** Every message in the queue is about a known request and says whose it is; a removal in
      the queue has been published. */
  ghost predicate QueueHolds(w: World) {
    && (forall m :: m in w.queue ==>
          m.st in w.owner && m.user == w.owner[m.st] && (m.removed ==> m.st in w.removedSent))
    && (w.phase.Idle? ==> w.queue == [])
    && (!w.phase.Streaming? ==> w.seen == {})
  }

  /** What will be on the screen once the queue is drained, and what is still to be announced. */
  ghost predicate Converging(w: World, user: UserId, st: State) {
    st in w.owner && w.owner[st] == user ==>
      && (st in MergeAll(user, w.seen, w.queue) <==>
            st in w.offered && (st in w.late || st !in w.removedSent || st in w.lostRemovals))
      && (w.phase.Streaming? && IsPending(w, st) ==>
            st in w.offered || st in w.oweItem || st in w.muted || st in w.lostItems)
  }

  ghost predicate OnlyOwn(w: World, user: UserId) {
    forall st :: st in w.seen ==> st in w.owner && w.owner[st] == user
  }

  ghost predicate Inv(w: World, user: UserId) {
    && (forall st :: Placed(w, st))
    && QueueHolds(w)
    && (forall st :: Converging(w, user, st))
    && OnlyOwn(w, user)
  }

  lemma PlacedKept(w: World, user: UserId, a: Action, st: State)
    requires Inv(w, user) && Step(w, user, a).Some?
    ensures Placed(Step(w, user, a).value, st)
  {
    assert Placed(w, st);
    match a
    case Leave(_, _) => ExitKeepsPlaced(w, user, a, st);
    case LazyExpire(_) => ExitKeepsPlaced(w, user, a, st);
    case Sweep => ExitKeepsPlaced(w, user, a, st);
    case PublishItem(_) => PublishKeepsPlaced(w, user, a, st);
    case PublishRemoved(_) => PublishKeepsPlaced(w, user, a, st);
    case _ =>
  }

  lemma ExitKeepsPlaced(w: World, user: UserId, a: Action, st: State)
    requires Placed(w, st) && Step(w, user, a).Some? && (a.Leave? || a.LazyExpire? || a.Sweep?)
    ensures Placed(Step(w, user, a).value, st)
  {
  }

  lemma PublishKeepsPlaced(w: World, user: UserId, a: Action, st: State)
    requires Placed(w, st) && Step(w, user, a).Some? && (a.PublishItem? || a.PublishRemoved?)
    ensures Placed(Step(w, user, a).value, st)
  {
  }

  lemma QueueKept(w: World, user: UserId, a: Action)
    requires Inv(w, user) && Step(w, user, a).Some?
    ensures QueueHolds(Step(w, user, a).value)
    ensures OnlyOwn(Step(w, user, a).value, user)
  {
    match a
    case ListRows =>
      forall st | st in PendingOf(w.rows, user)
        ensures st in w.owner && w.owner[st] == user
      {
        assert Placed(w, st);
      }
    case Receive => assert w.queue[0] in w.queue;
    case _ =>
  }

  lemma ConvergingKept(w: World, user: UserId, a: Action, st: State)
    requires Inv(w, user) && Step(w, user, a).Some? && user != ""
    ensures Converging(Step(w, user, a).value, user, st)
  {
    assert Placed(w, st) && Converging(w, user, st);
    match a
    case Create(s, _, _) => MergeIgnores(user, w.seen, w.queue, s);
    case PublishItem(s) => MergeAppends(user, w.seen, w.queue, Msg(s, w.owner[s], false));
    case PublishRemoved(s) => MergeAppends(user, w.seen, w.queue, Msg(s, w.owner[s], true));
    case ListRows =>
      if st in w.owner && w.owner[st] == user {
        if IsPending(w, st) {
          MergeKeeps(user, PendingOf(w.rows, user), w.queue, st);
        } else {
          MergeIsPointwise(user, w.seen, PendingOf(w.rows, user), w.queue, st);
        }
      }
    case _ =>
  }

  lemma {:induction false} InvHolds(user: UserId, run: seq<Action>)
    requires user != ""
    ensures Exec(user, run).Some? ==> Inv(Exec(user, run).value, user)
  {
    if run != [] {
      InvHolds(user, run[..|run| - 1]);
      if Exec(user, run).Some? {
        var w := Exec(user, run[..|run| - 1]).value;
        var a := run[|run| - 1];
        forall st
          ensures Placed(Step(w, user, a).value, st) && Converging(Step(w, user, a).value, user, st)
        {
          PlacedKept(w, user, a, st);
          ConvergingKept(w, user, a, st);
        }
        QueueKept(w, user, a);
      }
    }
  }

  // ---------------------------------------------------------------------------
  // Convergence
  // ---------------------------------------------------------------------------

  /** Everything owed has been published and everything delivered has been drained. */
  predicate Quiet(w: World) {
    w.phase.Streaming? && w.queue == [] && w.oweItem == {} && w.oweRemoved == {}
  }

  /** The exact list at rest: of the requests offered to this stream, those still pending, plus
      three kinds of phantom that stay on the screen: requests that left silently, requests whose
      item was published after their removal, and requests whose removal a full queue dropped. */
  lemma ListAtRest(user: UserId, run: seq<Action>, st: State)
    requires user != "" && Exec(user, run).Some? && Quiet(Exec(user, run).value)
    ensures var w := Exec(user, run).value;
            st in w.seen <==>
              && st in w.owner && w.owner[st] == user && st in w.offered
              && (IsPending(w, st) || st in w.silent || st in w.late || st in w.lostRemovals)
  {
    InvHolds(user, run);
    var w := Exec(user, run).value;
    assert Placed(w, st) && Converging(w, user, st);
  }

  /** The list at rest is the user's pending requests exactly when the snapshot or a message
      offered every pending request whose item was never published or was dropped, and nothing
      offered left silently, was published late, or had its removal dropped. */
  lemma Convergence(user: UserId, run: seq<Action>)
    requires user != "" && Exec(user, run).Some? && Quiet(Exec(user, run).value)
    ensures var w := Exec(user, run).value;
            w.seen == PendingOf(w.rows, user) <==>
              forall st :: st in w.owner && w.owner[st] == user ==>
                && (IsPending(w, st) && (st in w.muted || st in w.lostItems) ==> st in w.offered)
                && (st in w.offered ==> st !in w.silent && st !in w.late && st !in w.lostRemovals)
  {
    InvHolds(user, run);
    var w := Exec(user, run).value;
    forall st
      ensures st in w.seen <==>
                && st in w.owner && w.owner[st] == user && st in w.offered
                && (IsPending(w, st) || st in w.silent || st in w.late || st in w.lostRemovals)
      ensures st in PendingOf(w.rows, user) <==> st in w.owner && w.owner[st] == user && IsPending(w, st)
      ensures st in w.owner && w.owner[st] == user && IsPending(w, st) ==>
                st in w.offered || st in w.muted || st in w.lostItems
      ensures st in w.silent || st in w.late || st in w.lostRemovals ==> !IsPending(w, st)
    {
      ListAtRest(user, run, st);
      assert Placed(w, st) && Converging(w, user, st);
    }
  }

  /** In a run with none of those failures the list always converges. */
  lemma CleanRunsConverge(user: UserId, run: seq<Action>)
    requires user != "" && Exec(user, run).Some? && Quiet(Exec(user, run).value)
    requires var w := Exec(user, run).value;
             w.muted == {} && w.silent == {} && w.late == {} && w.lostItems == {} && w.lostRemovals == {}
    ensures Exec(user, run).value.seen == PendingOf(Exec(user, run).value.rows, user)
  {
    Convergence(user, run);
  }

  lemma Extend(user: UserId, w: World, run: seq<Action>, a: Action) returns (w': World)
    requires Exec(user, run) == Some(w) && Step(w, user, a).Some?
    ensures w' == Step(w, user, a).value && Exec(user, run + [a]) == Some(w')
  {
    w' := Step(w, user, a).value;
    assert (run + [a])[..|run + [a]| - 1] == run;
  }

  /** A request created and canceled while the stream is open, its item still unpublished. */
  lemma CanceledBeforePublished() returns (w: World, run: seq<Action>)
    ensures Exec("u", run) == Some(w)
    ensures w == START.(
                   rows := map["s" := Row(Status.Canceled, "u", "", 0, 10, 0, None)],
                   owner := map["s" := "u"],
                   oweItem := {"s"},
                   oweRemoved := {"s"},
                   phase := Streaming)
  {
    run := [];
    w := Extend("u", START, run, OpenStream);
    run := run + [OpenStream];
    w := Extend("u", w, run, ListRows);
    run := run + [ListRows];
    w := Extend("u", w, run, Create("s", "u", 10));
    run := run + [Create("s", "u", 10)];
    w := Extend("u", w, run, Leave("s", Cancellation("u")));
    run := run + [Leave("s", Cancellation("u"))];
  }

  lemma PublishedInTheWrongOrder() returns (w: World, run: seq<Action>)
    ensures Exec("u", run) == Some(w)
    ensures w == START.(
                   rows := map["s" := Row(Status.Canceled, "u", "", 0, 10, 0, None)],
                   owner := map["s" := "u"],
                   removedSent := {"s"},
                   phase := Streaming,
                   queue := [Msg("s", "u", true), Msg("s", "u", false)],
                   offered := {"s"},
                   late := {"s"})
  {
    w, run := CanceledBeforePublished();
    w := Extend("u", w, run, PublishRemoved("s"));
    run := run + [PublishRemoved("s")];
    w := Extend("u", w, run, PublishItem("s"));
    run := run + [PublishItem("s")];
  }

  /** The item is published after the response to the creator, so a quick cancellation can
      overtake it and leave a canceled request on the list. */
  lemma OvertakenItemIsAPhantom()
    ensures exists run :: Exec("u", run).Some? && Quiet(Exec("u", run).value) && Exec("u", run).value.silent == {}
                          && Exec("u", run).value.seen == {"s"} && PendingOf(Exec("u", run).value.rows, "u") == {}
  {
    var w, run := PublishedInTheWrongOrder();
    w := Extend("u", w, run, Receive);
    run := run + [Receive];
    w := Extend("u", w, run, Receive);
    run := run + [Receive];
    assert w.seen == {"s"};
  }

  /** The name of the n-th request. */
  function Name(n: nat): State {
    seq(n, _ => 'x')
  }

  /** An open stream that has not read any of the `n` items published to it. */
  lemma {:induction false} Filled(n: nat) returns (w: World, run: seq<Action>)
    requires n <= CAPACITY
    ensures Exec("u", run) == Some(w) && w.phase.Streaming? && |w.queue| == n
    ensures w.oweItem == {} && w.oweRemoved == {} && w.muted == {} && w.silent == {}
    ensures forall st :: st in w.owner || st in w.rows ==> |st| < n
  {
    if n == 0 {
      w := Extend("u", START, [], OpenStream);
      w := Extend("u", w, [] + [OpenStream], ListRows);
      run := [] + [OpenStream] + [ListRows];
    } else {
      w, run := Filled(n - 1);
      w, run := Announced(w, run, Name(n - 1));
    }
  }

  /** One more request is created and its item published. */
  lemma Announced(w: World, run: seq<Action>, st: State) returns (w': World, run': seq<Action>)
    requires Exec("u", run) == Some(w) && w.phase.Streaming? && st !in w.owner && st !in w.rows
    requires w.oweItem == {}
    ensures Exec("u", run') == Some(w') && w'.phase.Streaming? && IsPending(w', st)
    ensures w'.oweItem == {} && w'.oweRemoved == w.oweRemoved && w'.muted == w.muted && w'.silent == w.silent
    ensures w'.owner == w.owner[st := "u"] && w'.rows.Keys == w.rows.Keys + {st} && w'.rows[st].userId == "u"
    ensures |w.queue| < CAPACITY ==> |w'.queue| == |w.queue| + 1
    ensures Full(w) ==> w'.offered == w.offered && w'.lostItems == w.lostItems + {st}
  {
    var created := Extend("u", w, run, Create(st, "u", 10));
    w' := Extend("u", created, run + [Create(st, "u", 10)], PublishItem(st));
    run' := run + [Create(st, "u", 10)] + [PublishItem(st)];
  }

  /** The stream reads all that is queued. */
  lemma {:induction false} Drained(w: World, run: seq<Action>) returns (w': World, run': seq<Action>)
    requires Exec("u", run) == Some(w) && w.phase.Streaming?
    ensures Exec("u", run') == Some(w') && w'.queue == []
    ensures w' == w.(queue := [], seen := w'.seen)
    decreases |w.queue|
  {
    if w.queue == [] {
      w', run' := w, run;
    } else {
      var next := Extend("u", w, run, Receive);
      w', run' := Drained(next, run + [Receive]);
    }
  }

  /** The ninth item published while the stream reads nothing is dropped, and its request stays off
      the list although it is pending. */
  lemma DroppedItemIsMissed()
    ensures exists run, st ::
              && Exec("u", run).Some? && Quiet(Exec("u", run).value)
              && Exec("u", run).value.muted == {} && Exec("u", run).value.silent == {}
              && st in PendingOf(Exec("u", run).value.rows, "u") && st !in Exec("u", run).value.seen
  {
    var st := Name(CAPACITY);
    var full, run := Filled(CAPACITY);
    InvHolds("u", run);
    assert Placed(full, st);
    var w, run' := Announced(full, run, st);
    var end, all := Drained(w, run');
    ListAtRest("u", all, st);
    assert st in PendingOf(end.rows, "u");
  }

  // ---------------------------------------------------------------------------
  // Every way a run can go wrong does go wrong, and an ordinary one does not
  // ---------------------------------------------------------------------------

  /** A run of user "u" ends at rest, with this on the screen and these requests pending. */
  ghost predicate EndsAtRest(run: seq<Action>, screen: set<State>, pending: set<State>) {
    && Exec("u", run).Some? && Quiet(Exec("u", run).value)
    && Exec("u", run).value.seen == screen && PendingOf(Exec("u", run).value.rows, "u") == pending
  }

  /** A request created while the stream is open, its item unpublished. */
  lemma CreatedWhileOpen() returns (w: World, run: seq<Action>)
    ensures Exec("u", run) == Some(w)
    ensures w == START.(
                   rows := map["s" := Row(Status.Pending, "u", "", 0, 10, 0, None)],
                   owner := map["s" := "u"],
                   oweItem := {"s"},
                   phase := Streaming)
  {
    run := [];
    w := Extend("u", START, run, OpenStream);
    run := run + [OpenStream];
    w := Extend("u", w, run, ListRows);
    run := run + [ListRows];
    w := Extend("u", w, run, Create("s", "u", 10));
    run := run + [Create("s", "u", 10)];
  }

  /** Its creation fails before the item is published: it is pending and not on the screen. */
  lemma UnannouncedRequestIsMissed()
    ensures exists run :: EndsAtRest(run, {}, {"s"})
  {
    var w, run := CreatedWhileOpen();
    w := Extend("u", w, run, CreatorFails("s"));
    run := run + [CreatorFails("s")];
    assert EndsAtRest(run, {}, {"s"});
  }

  /** The item is published and read: the request is on the screen. */
  lemma OnTheScreen() returns (w: World, run: seq<Action>)
    ensures Exec("u", run) == Some(w) && EndsAtRest(run, {"s"}, {"s"})
    ensures w == START.(
                   rows := map["s" := Row(Status.Pending, "u", "", 0, 10, 0, None)],
                   owner := map["s" := "u"],
                   phase := Streaming,
                   seen := {"s"},
                   offered := {"s"})
  {
    w, run := CreatedWhileOpen();
    w := Extend("u", w, run, PublishItem("s"));
    run := run + [PublishItem("s")];
    w := Extend("u", w, run, Receive);
    run := run + [Receive];
    assert w.seen == {"s"} && PendingOf(w.rows, "u") == {"s"};
  }

  /** It is expired by a read or a sweep: nobody publishes that, and it stays on the screen. */
  lemma ExpiredRequestIsAPhantom(sweep: bool)
    ensures exists run :: EndsAtRest(run, {"s"}, {})
  {
    var w, run := OnTheScreen();
    w := Extend("u", w, run, Tick(12 * NANOS));
    run := run + [Tick(12 * NANOS)];
    var a := if sweep then Sweep else LazyExpire("s");
    w := Extend("u", w, run, a);
    run := run + [a];
    assert EndsAtRest(run, {"s"}, {});
  }

  /** Its handler fails after the transaction: it stays on the screen as well. */
  lemma UnpublishedRemovalIsAPhantom()
    ensures exists run :: EndsAtRest(run, {"s"}, {})
  {
    var w, run := OnTheScreen();
    w := Extend("u", w, run, Leave("s", Cancellation("u")));
    run := run + [Leave("s", Cancellation("u"))];
    w := Extend("u", w, run, HandlerFails("s"));
    run := run + [HandlerFails("s")];
    assert EndsAtRest(run, {"s"}, {});
  }

  /** It is completed and its removal published: it leaves the screen, and only then. */
  lemma CompletedRequestLeavesTheScreen()
    ensures exists run ::
              EndsAtRest(run, {}, {}) && "s" in Exec("u", run).value.rows
              && Exec("u", run).value.rows["s"].status.Completed? && Exec("u", run).value.rows["s"].result == Some("e")
  {
    var w, run := OnTheScreen();
    w := Extend("u", w, run, Leave("s", Completion("u", "e")));
    run := run + [Leave("s", Completion("u", "e"))];
    assert w.seen == {"s"};
    w := Extend("u", w, run, PublishRemoved("s"));
    run := run + [PublishRemoved("s")];
    w := Extend("u", w, run, Receive);
    run := run + [Receive];
    assert w.seen == {};
    assert EndsAtRest(run, {}, {});
  }
}
