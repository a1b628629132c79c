/** The request lifecycle and the long poll, as a state machine.

    Every SQL statement, every transaction and every section under the server lock is one
    step; pollers, confirm and cancel handlers, expiry events and housekeeping interleave
    freely. `history` records, per request, what happened to it; `silent` records the
    requests that left `pending` on a path that will never call `notifySubscriber`. */
module LongPoll {
  import opened Prelude
  import opened Requests
  import opened Notifications

  /** The statements inside `GetRequest`. */
  datatype GetPc = Read | Expire | Reread

  datatype PollPc =
    | Ownership(get: GetPc)
    | Subscribing
    | Looping(get: GetPc)
    | Collecting(completed: bool)
    | Parked
    | Leaving
    | Returned

  datatype Response = NotFound | Gone | Done(result: Option<Envelope>) | Failed | StillPending | ServerError

  datatype Poller = Poller(st: State, user: UserId, pc: PollPc, watch: Option<nat>, response: Option<Response>)
  {
    /** Between its `subscribeState` and its deferred `unsubscribeState`. */
    predicate Live() {
      pc.Looping? || pc.Collecting? || pc.Parked? || pc.Leaving?
    }
  }

  datatype HandlerKind = Confirm(env: Envelope) | Cancellation | Expiry

  datatype HandlerPc = Begin | Dequeuing | Notifying | Publishing | Finished

  datatype Handler = Handler(kind: HandlerKind, st: State, user: UserId, pc: HandlerPc)
  {
    /** Its transition is committed and its `notifySubscriber` is still to come. */
    predicate OwesNotify() {
      pc.Dequeuing? || pc.Notifying?
    }
  }

  datatype Event =
    | Left(status: Status, actor: Option<UserId>, at: nat, result: Option<Envelope>)
    | Audited(action: Status, user: UserId)
    | Collected(poller: nat, status: Status, result: Option<Envelope>)

  datatype Birth = Birth(owner: UserId, expiresAt: int)

  datatype World = World(
    now: nat,
    rows: Table,
    born: map<State, Birth>,
    history: map<State, seq<Event>>,
    hub: Hub<nat>,
    made: nat,
    pollers: map<nat, Poller>,
    handlers: map<nat, Handler>,
    silent: set<State>)

  datatype Action =
    | Tick(nanos: nat)
    | Create(st: State, user: UserId, details: string, expiresAt: int)
    | Poll(id: nat, st: State, user: UserId)
    | PollerStep(id: nat)
    | Disconnect(id: nat)
    | PollerDbError(id: nat)
    | Handle(id: nat, kind: HandlerKind, st: State, user: UserId)
    | HandlerStep(id: nat)
    | HandlerError(id: nat)
    | LazyExpire(st: State)
    | SweepExpired
    | DeleteRow(st: State, cutoff: Option<int>)
    | CleanupRows(before: int)

  const START: World := World(0, map[], map[], map[], Hub(map[], map[], false), 0, map[], map[], {})

  // ---------------------------------------------------------------------------
  // Steps
  // ---------------------------------------------------------------------------

  function Record(w: World, st: State, events: seq<Event>): World {
    w.(history := w.history[st := (if st in w.history then w.history[st] else []) + events])
  }

  function GoPoller(w: World, id: nat, p: Poller): World {
    w.(pollers := w.pollers[id := p])
  }

  function GoHandler(w: World, id: nat, h: Handler): World {
    w.(handlers := w.handlers[id := h])
  }

  /** A row that `GetRequest` or a sweep expired: nobody will notify or publish. */
  function ExpireSilently(w: World, st: State): World {
    var o := MarkExpired(w.rows, st, w.now);
    if o.row.Some? then
      Record(w.(rows := o.table, silent := w.silent + {st}), st, [Left(Expired, None, w.now, o.row.value.result)])
    else w
  }

  /** Where a poller goes once `GetRequest` has returned `rec`. */
  function Next(p: Poller, rec: Option<Row>): Poller {
    if p.pc.Ownership? then
      if rec.None? || rec.value.userId != p.user then p.(pc := Returned, response := Some(NotFound))
      else p.(pc := Subscribing)
    else
      match rec
      case None => p.(pc := Leaving, response := Some(Gone))
      case Some(row) =>
        match row.status
        case Completed => p.(pc := Collecting(true))
        case Canceled => p.(pc := Collecting(false))
        case Expired => p.(pc := Collecting(false))
        case Pending => p.(pc := Parked)
  }

  function WithGet(p: Poller, g: GetPc): Poller {
    p.(pc := if p.pc.Ownership? then Ownership(g) else Looping(g))
  }

  function StepGet(w: World, id: nat, p: Poller, g: GetPc): World {
    match g
    case Read =>
      var rec := Find(w.rows, p.st);
      var tooLate := rec.Some? && rec.value.status.Pending? && PastDeadline(rec.value, w.now);
      GoPoller(w, id, if tooLate then WithGet(p, Expire) else Next(p, rec))
    case Expire =>
      var o := MarkExpired(w.rows, p.st, w.now);
      GoPoller(ExpireSilently(w, p.st), id, if o.row.Some? then Next(p, o.row) else WithGet(p, Reread))
    case Reread =>
      GoPoller(w, id, Next(p, Find(w.rows, p.st)))
  }

  function StepSubscribe(w: World, id: nat, p: Poller): World {
    GoPoller(
      w.(hub := Subscribe(w.hub, p.st, w.made), made := w.made + 1),
      id,
      p.(pc := Looping(Read), watch := Some(w.made)))
  }

  function StepCollect(w: World, id: nat, p: Poller, completed: bool): World {
    var o := TakeTerminal(w.rows, p.st, w.now);
    match o.row
    case None => GoPoller(w, id, p.(pc := Looping(Read)))
    case Some(row) =>
      var wasPending := w.rows[p.st].status.Pending?;
      var exit := if wasPending then [Left(Expired, None, w.now, row.result)] else [];
      var silent := if wasPending then w.silent + {p.st} else w.silent;
      GoPoller(
        Record(w.(rows := o.table, silent := silent), p.st, exit + [Collected(id, row.status, row.result)]),
        id,
        p.(pc := Leaving, response := Some(if completed then Done(row.result) else Failed)))
  }

  /** The `select` on the watch channel; `None` while it blocks. */
  function StepReceive(w: World, id: nat, p: Poller): Option<World> {
    if p.watch.None? || p.watch.value !in w.hub.chans then None
    else
      var c := p.watch.value;
      if w.hub.chans[c].full then
        var drained := w.hub.(chans := w.hub.chans[c := w.hub.chans[c].(full := false)]);
        Some(GoPoller(w.(hub := drained), id, p.(pc := Looping(Read))))
      else if !w.hub.chans[c].open then
        Some(GoPoller(w, id, p.(pc := Leaving, response := Some(StillPending))))
      else None
  }

  function StepLeave(w: World, id: nat, p: Poller): World {
    var hub := if p.watch.Some? then Unsubscribe(w.hub, p.st, p.watch.value) else w.hub;
    GoPoller(w.(hub := hub), id, p.(pc := Returned))
  }

  function StepPoller(w: World, id: nat, p: Poller): Option<World> {
    match p.pc
    case Ownership(g) => Some(StepGet(w, id, p, g))
    case Subscribing => Some(StepSubscribe(w, id, p))
    case Looping(g) => Some(StepGet(w, id, p, g))
    case Collecting(completed) => Some(StepCollect(w, id, p, completed))
    case Parked => StepReceive(w, id, p)
    case Leaving => Some(StepLeave(w, id, p))
    case Returned => None
  }

  /** The statement inside the handler's transaction. */
  function Transition(rows: Table, h: Handler, now: nat): Requests.Outcome {
    match h.kind
    case Confirm(env) => Complete(rows, h.st, h.user, env, now)
    case Cancellation => Cancel(rows, h.st, h.user, now)
    case Expiry => MarkExpired(rows, h.st, now)
  }

  /** What the transaction puts on record: the exit, and for confirm and cancel the audit row. */
  function ExitEvents(h: Handler, row: Row, now: nat): seq<Event> {
    match h.kind
    case Confirm(_) => [Left(Completed, Some(h.user), now, row.result), Audited(Completed, h.user)]
    case Cancellation => [Left(Canceled, Some(h.user), now, row.result), Audited(Canceled, h.user)]
    case Expiry => [Left(Expired, None, now, row.result)]
  }

  /** The row and its audit record change together or not at all. */
  function Commit(w: World, id: nat, h: Handler): World {
    var o := Transition(w.rows, h, w.now);
    if o.row.Some? then
      GoHandler(
        Record(w.(rows := o.table), h.st, ExitEvents(h, o.row.value, w.now)),
        id,
        h.(pc := if h.kind.Expiry? then Notifying else Dequeuing))
    else GoHandler(w, id, h.(pc := Finished))
  }

  function NextPc(pc: HandlerPc): HandlerPc {
    match pc
    case Begin => Dequeuing
    case Dequeuing => Notifying
    case Notifying => Publishing
    case Publishing => Finished
    case Finished => Finished
  }

  function StepHandler(w: World, id: nat, h: Handler): Option<World> {
    if h.pc.Finished? then None
    else if h.pc.Begin? then Some(Commit(w, id, h))
    else
      var hub := if h.pc.Notifying? then Notify(w.hub, h.st) else w.hub;
      Some(GoHandler(w.(hub := hub), id, h.(pc := NextPc(h.pc))))
  }

  function Sweep(w: World): World {
    var due := set st | st in w.rows && Overdue(w.rows[st], w.now);
    w.(rows := ExpirePending(w.rows, w.now),
       silent := w.silent + due,
       history := map st | st in w.history ::
         if st in due then w.history[st] + [Left(Expired, None, w.now, w.rows[st].result)] else w.history[st])
  }

  function StepCreate(w: World, st: State, user: UserId, details: string, expiresAt: int): Option<World> {
    // The state is a fresh random UUID
    if st in w.born then None
    else
      var t := Insert(w.rows, st, user, details, Unix(w.now), expiresAt);
      if t.None? then None
      else Some(w.(rows := t.value, born := w.born[st := Birth(user, expiresAt)], history := w.history[st := []]))
  }

  function StepPollerError(w: World, id: nat, p: Poller): Option<World> {
    if p.pc.Ownership? || p.pc.Looping? || p.pc.Collecting? then
      Some(GoPoller(w, id, p.(pc := if p.pc.Ownership? then Returned else Leaving, response := Some(ServerError))))
    else None
  }

  /** A failed transaction changes nothing; a failed `Dequeue` returns before the notify. */
  function StepHandlerError(w: World, id: nat, h: Handler): Option<World> {
    if h.pc.Begin? || h.pc.Dequeuing? then
      Some(GoHandler(w.(silent := if h.pc.Dequeuing? then w.silent + {h.st} else w.silent), id, h.(pc := Finished)))
    else None
  }

  function Step(w: World, a: Action): Option<World> {
    match a
    case Tick(nanos) => Some(w.(now := w.now + nanos))
    case Create(st, user, details, expiresAt) => StepCreate(w, st, user, details, expiresAt)
    case Poll(id, st, user) =>
      if id in w.pollers then None
      else Some(GoPoller(w, id, Poller(st, user, Ownership(Read), None, None)))
    case PollerStep(id) => if id in w.pollers then StepPoller(w, id, w.pollers[id]) else None
    case Disconnect(id) =>
      if id in w.pollers && w.pollers[id].pc.Parked? then
        Some(GoPoller(w, id, w.pollers[id].(pc := Leaving, response := Some(StillPending))))
      else None
    case PollerDbError(id) => if id in w.pollers then StepPollerError(w, id, w.pollers[id]) else None
    case Handle(id, kind, st, user) =>
      if id in w.handlers then None
      else Some(GoHandler(w, id, Handler(kind, st, user, Begin)))
    case HandlerStep(id) => if id in w.handlers then StepHandler(w, id, w.handlers[id]) else None
    case HandlerError(id) => if id in w.handlers then StepHandlerError(w, id, w.handlers[id]) else None
    case LazyExpire(st) => Some(ExpireSilently(w, st))
    case SweepExpired => Some(Sweep(w))
    case DeleteRow(st, cutoff) => Some(w.(rows := DeleteTerminal(w.rows, st, cutoff)))
    case CleanupRows(before) => Some(w.(rows := CleanupOld(w.rows, before)))
  }

  /** The world after a run, or `None` when some action was not possible where it stands. */
  function Exec(w: World, run: seq<Action>): Option<World> {
    if run == [] then Some(w)
    else
      var before := Exec(w, run[..|run| - 1]);
      if before.None? then None else Step(before.value, run[|run| - 1])
  }

  ghost predicate Reachable(w: World) {
    exists run :: Exec(START, run) == Some(w)
  }

  // ---------------------------------------------------------------------------
  // One outcome per request
  // ---------------------------------------------------------------------------

  /** How a request may leave `pending`: completed by its owner no later than its deadline,
      canceled by its owner, or expired after its deadline; the first two write exactly one
      matching audit record. */
  ghost predicate ExitStory(h: seq<Event>, b: Birth) {
    && |h| >= 1
    && h[0].Left?
    && match h[0].status
       case Pending => false
       case Completed =>
         && |h| == 2
         && h[0].actor == Some(b.owner) && Unix(h[0].at) <= b.expiresAt && h[0].result.Some?
         && h[1] == Audited(Completed, b.owner)
       case Canceled =>
         && |h| == 2
         && h[0].actor == Some(b.owner) && h[0].result.None?
         && h[1] == Audited(Canceled, b.owner)
       case Expired =>
         && |h| == 1
         && h[0].actor.None? && b.expiresAt < Unix(h[0].at) && h[0].result.None?
  }

  ghost predicate IsCollected(h: seq<Event>) {
    |h| > 0 && h[|h| - 1].Collected?
  }

  /** Nothing yet, an exit, or an exit whose row one poller then took, with the status and
      the envelope the exit stored. */
  ghost predicate Story(h: seq<Event>, b: Birth) {
    || h == []
    || ExitStory(h, b)
    || (&& IsCollected(h)
        && ExitStory(h[..|h| - 1], b)
        && h[|h| - 1].status == h[0].status
        && h[|h| - 1].result == h[0].result)
  }

  ghost predicate RowMatches(row: Row, h: seq<Event>, b: Birth) {
    && row.userId == b.owner
    && row.expiresAt == b.expiresAt
    && (row.status.Pending? <==> h == [])
    && (row.status.Pending? ==> row.result.None?)
    && (!row.status.Pending? ==> ExitStory(h, b) && row.status == h[0].status && row.result == h[0].result)
  }

  ghost predicate RowsHold(rows: Table, born: map<State, Birth>, history: map<State, seq<Event>>) {
    && history.Keys == born.Keys
    && rows.Keys <= born.Keys
    && (forall st :: st in born ==> Story(history[st], born[st]))
    && (forall st :: st in rows ==> RowMatches(rows[st], history[st], born[st]))
    && (forall st :: st in born && st !in rows ==> history[st] != [])
  }

  /** The history says poller `id` took the row, and `answer` is what it then owes its client. */
  ghost predicate TookRow(h: seq<Event>, id: nat, answer: Response) {
    && IsCollected(h)
    && var last := h[|h| - 1];
       && last.poller == id
       && (answer.Done? ==> last.status.Completed? && answer.result == last.result)
       && (answer.Failed? ==> last.status.Canceled? || last.status.Expired?)
  }

  ghost predicate AnswerHolds(history: map<State, seq<Event>>, id: nat, p: Poller) {
    && (p.response.Some? ==> p.pc.Leaving? || p.pc.Returned?)
    && (p.response.Some? && (p.response.value.Done? || p.response.value.Failed?) ==>
          p.st in history && TookRow(history[p.st], id, p.response.value))
    && (p.pc.Collecting? ==>
          && p.st in history && history[p.st] != []
          && history[p.st][0].Left?
          && (p.pc.completed <==> history[p.st][0].status.Completed?))
  }

  ghost predicate AnswersHold(history: map<State, seq<Event>>, pollers: map<nat, Poller>) {
    forall id :: id in pollers ==> AnswerHolds(history, id, pollers[id])
  }

  // ---------------------------------------------------------------------------
  // Channel discipline
  // ---------------------------------------------------------------------------

  ghost predicate OwnsWatch(p: Poller, st: State, c: nat) {
    p.Live() && p.st == st && p.watch == Some(c)
  }

  ghost predicate HasOwner(pollers: map<nat, Poller>, st: State, c: nat) {
    exists id :: id in pollers && OwnsWatch(pollers[id], st, c)
  }

  ghost predicate WatchHolds(p: Poller, made: nat) {
    && (p.Live() ==> p.watch.Some?)
    && (p.pc.Ownership? || p.pc.Subscribing? ==> p.watch.None?)
    && (p.watch.Some? ==> p.watch.value < made)
  }

  ghost predicate WatchesHold(pollers: map<nat, Poller>, made: nat) {
    forall id :: id in pollers ==> WatchHolds(pollers[id], made)
  }

  ghost predicate OwnersHold(subs: map<State, nat>, pollers: map<nat, Poller>) {
    forall st :: st in subs ==> HasOwner(pollers, st, subs[st])
  }

  predicate SameWatch(p: Poller, q: Poller) {
    p.watch.Some? && p.watch == q.watch
  }

  ghost predicate Unshared(pollers: map<nat, Poller>) {
    forall a, b :: a in pollers && b in pollers && SameWatch(pollers[a], pollers[b]) ==> a == b
  }

  /** Every registered channel belongs to a live poller of that request, no two pollers share
      a channel, and the channels obey the discipline of `Notifications`. */
  ghost predicate ChannelsHold(hub: Hub<nat>, made: nat, pollers: map<nat, Poller>) {
    && Disciplined(hub)
    && (forall c: nat :: c in hub.chans <==> c < made)
    && WatchesHold(pollers, made)
    && Unshared(pollers)
    && OwnersHold(hub.subs, pollers)
  }

  // ---------------------------------------------------------------------------
  // Wakeups
  // ---------------------------------------------------------------------------

  predicate IsPending(w: World, st: State) {
    st in w.rows && w.rows[st].status.Pending?
  }

  ghost predicate Owed(handlers: map<nat, Handler>, st: State) {
    exists id :: id in handlers && handlers[id].OwesNotify() && handlers[id].st == st
  }

  /** Blocked in the `select`: nothing to receive and not evicted. */
  predicate Blocked(hub: Hub<nat>, p: Poller) {
    p.pc.Parked? && p.watch.Some? && p.watch.value in hub.chans && hub.chans[p.watch.value] == ChanState(true, false)
  }

  predicate BothOwe(a: Handler, b: Handler) {
    a.OwesNotify() && b.OwesNotify() && a.st == b.st
  }

  /** A debt exists only for a request that has left `pending` aloud, and only one handler has it. */
  ghost predicate DebtsHold(w: World) {
    && (forall id :: id in w.handlers && w.handlers[id].OwesNotify() ==>
          w.handlers[id].st in w.born && !IsPending(w, w.handlers[id].st) && w.handlers[id].st !in w.silent)
    && (forall a, b :: a in w.handlers && b in w.handlers && BothOwe(w.handlers[a], w.handlers[b]) ==> a == b)
    && (forall st :: st in w.silent ==> st in w.born && !IsPending(w, st))
  }

  ghost predicate WakeupHolds(w: World, p: Poller) {
    && (p.pc.Parked? ==> p.st in w.born)
    && (Blocked(w.hub, p) && !IsPending(w, p.st) ==> Owed(w.handlers, p.st) || p.st in w.silent)
  }

  ghost predicate WakeupsHold(w: World) {
    forall id :: id in w.pollers ==> WakeupHolds(w, w.pollers[id])
  }

  ghost predicate Inv(w: World) {
    && RowsHold(w.rows, w.born, w.history)
    && AnswersHold(w.history, w.pollers)
    && ChannelsHold(w.hub, w.made, w.pollers)
    && DebtsHold(w)
    && WakeupsHold(w)
  }
}
