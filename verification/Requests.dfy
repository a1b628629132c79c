/** The `v2_requests` table: each SQL statement is one atomic function on the
    table, and `RequestStore` is the object whose methods run them.

    The clock counts nanoseconds. The database stores and compares whole seconds,
    while `GetRequest` compares a stored deadline with the full-precision clock, so
    the two comparisons disagree during the second that starts at the deadline. */
module Requests {
  import opened Prelude

  type State = string
  type UserId = string
  type Envelope = string

  datatype Status = Pending | Completed | Canceled | Expired

  /** `details` stands for the columns no statement ever changes or tests
      (operation, key label, algorithm, requestor IP, note, encrypted request). */
  datatype Row = Row(
    status: Status,
    userId: UserId,
    details: string,
    createdAt: int,
    expiresAt: int,
    updatedAt: int,
    result: Option<Envelope>)

  type Table = map<State, Row>

  datatype Outcome = Outcome(table: Table, row: Option<Row>)

  const NANOS: int := 1_000_000_000

  function Unix(now: nat): nat {
    now / NANOS
  }

  /** `rec.ExpiresAt.Before(time.Now())`: the comparison at full precision. */
  predicate PastDeadline(row: Row, now: nat) {
    row.expiresAt * NANOS < now
  }

  function Find(t: Table, st: State): Option<Row> {
    if st in t then Some(t[st]) else None
  }

  function Insert(t: Table, st: State, user: UserId, details: string, createdAt: int, expiresAt: int): Option<Table> {
    if st in t then None
    else Some(t[st := Row(Pending, user, details, createdAt, expiresAt, createdAt, None)])
  }

  function Complete(t: Table, st: State, user: UserId, env: Envelope, now: nat): Outcome {
    if st in t && t[st].userId == user && t[st].status.Pending? && Unix(now) <= t[st].expiresAt then
      var row := t[st].(status := Completed, updatedAt := Unix(now), result := Some(env));
      Outcome(t[st := row], Some(row))
    else
      Outcome(t, None)
  }

  function Cancel(t: Table, st: State, user: UserId, now: nat): Outcome {
    if st in t && t[st].userId == user && t[st].status.Pending? then
      var row := t[st].(status := Canceled, updatedAt := Unix(now));
      Outcome(t[st := row], Some(row))
    else
      Outcome(t, None)
  }

  predicate Overdue(row: Row, now: nat) {
    row.status.Pending? && row.expiresAt < Unix(now)
  }

  function AsExpired(row: Row, now: nat): Row {
    row.(status := Expired, updatedAt := Unix(now))
  }

  function MarkExpired(t: Table, st: State, now: nat): Outcome {
    if st in t && Overdue(t[st], now) then
      Outcome(t[st := AsExpired(t[st], now)], Some(AsExpired(t[st], now)))
    else
      Outcome(t, None)
  }

  function ExpirePending(t: Table, now: nat): Table {
    map st | st in t :: if Overdue(t[st], now) then AsExpired(t[st], now) else t[st]
  }

  /** `DELETE ... WHERE status != 'pending' OR expires_at < now RETURNING ...`: an overdue
      pending row is returned as expired and deleted in the same statement. */
  function TakeTerminal(t: Table, st: State, now: nat): Outcome {
    if st in t && !t[st].status.Pending? then
      Outcome(t - {st}, Some(t[st]))
    else if st in t && Overdue(t[st], now) then
      Outcome(t - {st}, Some(AsExpired(t[st], now)))
    else
      Outcome(t, None)
  }

  /** `DeleteTerminalRequest`; the cutoff, when given, is the event's due time less ten minutes. */
  function DeleteTerminal(t: Table, st: State, cutoff: Option<int>): Table {
    if st in t && !t[st].status.Pending? && (cutoff.Some? ==> t[st].expiresAt < cutoff.value) then t - {st} else t
  }

  function CleanupOld(t: Table, cutoff: int): Table {
    map st | st in t && (t[st].status.Pending? || cutoff <= t[st].expiresAt) :: t[st]
  }

  function PendingOf(t: Table, user: UserId): set<State> {
    set st | st in t && t[st].status.Pending? && t[st].userId == user
  }

  /** What a list without or with a user holds. */
  function Listed(t: Table, user: Option<UserId>): set<State> {
    match user
    case None => set st | st in t && t[st].status.Pending?
    case Some(id) => PendingOf(t, id)
  }

  // ---------------------------------------------------------------------------
  // Statements never rewrite a finished row
  // ---------------------------------------------------------------------------

  datatype Statement =
    | InsertStmt(st: State, user: UserId, details: string, createdAt: int, expiresAt: int)
    | CompleteStmt(st: State, user: UserId, env: Envelope)
    | CancelStmt(st: State, user: UserId)
    | MarkExpiredStmt(st: State)
    | ExpirePendingStmt
    | TakeTerminalStmt(st: State)
    | DeleteTerminalStmt(st: State, cutoff: Option<int>)
    | CleanupOldStmt(cutoffSeconds: int)

  function Execute(t: Table, s: Statement, now: nat): Table {
    match s
    case InsertStmt(st, user, details, createdAt, expiresAt) =>
      var r := Insert(t, st, user, details, createdAt, expiresAt);
      if r.Some? then r.value else t
    case CompleteStmt(st, user, env) => Complete(t, st, user, env, now).table
    case CancelStmt(st, user) => Cancel(t, st, user, now).table
    case MarkExpiredStmt(st) => MarkExpired(t, st, now).table
    case ExpirePendingStmt => ExpirePending(t, now)
    case TakeTerminalStmt(st) => TakeTerminal(t, st, now).table
    case DeleteTerminalStmt(st, cutoff) => DeleteTerminal(t, st, cutoff)
    case CleanupOldStmt(cutoff) => CleanupOld(t, cutoff)
  }

  /** What one row may become: stay, leave `pending` with its identity kept, or, once
      finished or overdue, disappear. A row that disappears while pending was overdue. */
  ghost predicate LegalChange(before: Row, after: Option<Row>, now: nat) {
    match after
    case None => !before.status.Pending? || Overdue(before, now)
    case Some(row) =>
      || row == before
      || (&& before.status.Pending?
          && !row.status.Pending?
          && row == before.(status := row.status, updatedAt := Unix(now), result := row.result)
          && (row.status.Completed? ==> row.result.Some? && Unix(now) <= before.expiresAt)
          && (!row.status.Completed? ==> row.result == before.result)
          && (row.status.Expired? ==> before.expiresAt < Unix(now)))
  }

  lemma StatementsAreLegal(t: Table, s: Statement, now: nat, st: State)
    requires st in t
    ensures LegalChange(t[st], Find(Execute(t, s, now), st), now)
  {
  }

  /** What one row becomes, written once for every statement. */
  function Fate(row: Row, st: State, s: Statement, now: nat): Option<Row> {
    var second := now / NANOS;
    match s
    case CompleteStmt(x, user, env) =>
      if x == st && user == row.userId && row.status == Pending && second <= row.expiresAt then
        Some(row.(status := Completed, updatedAt := second, result := Some(env)))
      else Some(row)
    case CancelStmt(x, user) =>
      if x == st && user == row.userId && row.status == Pending then
        Some(row.(status := Canceled, updatedAt := second))
      else Some(row)
    case MarkExpiredStmt(x) => Some(if x == st then Lapsed(row, second) else row)
    case ExpirePendingStmt => Some(Lapsed(row, second))
    case TakeTerminalStmt(x) => if x == st && Lapsed(row, second).status != Pending then None else Some(row)
    case DeleteTerminalStmt(x, cutoff) =>
      if x == st && row.status != Pending && (cutoff == None || row.expiresAt < cutoff.value) then None else Some(row)
    case CleanupOldStmt(cutoff) => if row.status != Pending && row.expiresAt < cutoff then None else Some(row)
    case InsertStmt(_, _, _, _, _) => Some(row)
  }

  function Lapsed(row: Row, second: int): Row {
    if row.status == Pending && row.expiresAt < second then row.(status := Expired, updatedAt := second) else row
  }

  /** Every statement acts on each row by itself, and does to it exactly this; on a row that is not
      there only an insert acts, and makes a pending one. */
  lemma StatementsActOnRows(t: Table, s: Statement, now: nat, st: State)
    ensures st in t ==> Find(Execute(t, s, now), st) == Fate(t[st], st, s, now)
    ensures st !in t ==>
              Find(Execute(t, s, now), st) ==
                if s.InsertStmt? && s.st == st then
                  Some(Row(Pending, s.user, s.details, s.createdAt, s.expiresAt, s.createdAt, None))
                else None
  {
  }

  /** A sequence of statements, each with the time it ran at. */
  function ExecuteAll(t: Table, script: seq<(Statement, nat)>): Table {
    if script == [] then t
    else Execute(ExecuteAll(t, script[..|script| - 1]), script[|script| - 1].0, script[|script| - 1].1)
  }

  /** A script runs its statements one after another. */
  lemma {:induction false} ScriptsRunInOrder(t: Table, a: seq<(Statement, nat)>, b: seq<(Statement, nat)>)
    ensures ExecuteAll(t, a + b) == ExecuteAll(ExecuteAll(t, a), b)
    ensures |b| == 1 ==> ExecuteAll(t, b) == Execute(t, b[0].0, b[0].1)
    decreases |b|
  {
    if b == [] {
      assert a + b == a;
    } else {
      var n := |b| - 1;
      assert (a + b)[..|a + b| - 1] == a + b[..n];
      ScriptsRunInOrder(t, a, b[..n]);
      assert |b| == 1 ==> b[..n] == [];
    }
  }

  predicate Inserts(s: Statement, st: State) {
    s.InsertStmt? && s.st == st
  }

  /** Terminal means final: over any script that does not reuse the primary key, a finished
      row is either gone or bit for bit what it was. */
  lemma {:induction false} TerminalIsFinal(t: Table, script: seq<(Statement, nat)>, st: State)
    requires st in t && !t[st].status.Pending?
    requires forall i :: 0 <= i < |script| ==> !Inserts(script[i].0, st)
    ensures Find(ExecuteAll(t, script), st) in {None, Some(t[st])}
  {
    if script != [] {
      var n := |script| - 1;
      TerminalIsFinal(t, script[..n], st);
      var mid := ExecuteAll(t, script[..n]);
      assert !Inserts(script[n].0, st);
      if st in mid {
        StatementsAreLegal(mid, script[n].0, script[n].1, st);
      } else {
        AbsentStaysAbsent(mid, script[n].0, script[n].1, st);
      }
    }
  }

  lemma AbsentStaysAbsent(t: Table, s: Statement, now: nat, st: State)
    requires st !in t && !Inserts(s, st)
    ensures st !in Execute(t, s, now)
  {
  }

  /** The full-precision test only ever fires later than the whole-second one could: a row
      `MarkExpired` may expire is always past its deadline, and the converse fails exactly
      while the clock is still inside the deadline's own second. */
  lemma DeadlineTestsAgree(row: Row, now: nat)
    requires row.status.Pending?
    ensures Overdue(row, now) ==> PastDeadline(row, now)
    ensures PastDeadline(row, now) ==> (Overdue(row, now) <==> row.expiresAt != Unix(now))
    ensures PastDeadline(row, now) && !Overdue(row, now) <==> now / NANOS == row.expiresAt && now % NANOS > 0
  {
    assert now == NANOS * Unix(now) + now % NANOS;
  }

  /** Every other row is what it was. */
  predicate OnlyRowChanged(before: Table, after: Table, st: State) {
    before - {st} == after - {st}
  }

  class RequestStore {
    var rows: Table

    constructor ()
      ensures rows == map[]
    {
      rows := map[];
    }

    method CreateRequest(st: State, user: UserId, details: string, createdAt: int, expiresAt: int) returns (ok: bool)
      modifies this
      ensures ok == (st !in old(rows))
      ensures ok ==> Insert(old(rows), st, user, details, createdAt, expiresAt) == Some(rows)
      ensures !ok ==> rows == old(rows)
      ensures OnlyRowChanged(old(rows), rows, st) && st in rows
    {
      if st in rows {
        return false;
      }
      rows := rows[st := Row(Pending, user, details, createdAt, expiresAt, createdAt, None)];
      return true;
    }

    /** Reads, expires what it finds overdue, and reads again when the update matched nothing.
        With no writer in between this is `MarkExpired` followed by a read. */
    method GetRequest(st: State, now: nat) returns (rec: Option<Row>)
      modifies this
      ensures rows == MarkExpired(old(rows), st, now).table
      ensures rec == Find(rows, st)
      ensures OnlyRowChanged(old(rows), rows, st)
      ensures rec.Some? <==> st in old(rows)
      ensures rec.Some? && old(rows)[st].status.Pending? && old(rows)[st].expiresAt < now / NANOS ==>
                rec.value == old(rows)[st].(status := Expired, updatedAt := now / NANOS)
      ensures rec.Some? && !(old(rows)[st].status.Pending? && old(rows)[st].expiresAt < now / NANOS) ==>
                rec.value == old(rows)[st]
    {
      rec := Find(rows, st);
      if rec.None? {
        return;
      }
      if rec.value.status.Pending? {
        DeadlineTestsAgree(rec.value, now);
      }
      if rec.value.status.Pending? && PastDeadline(rec.value, now) {
        var expired := MarkOverdue(st, now);
        if expired.Some? {
          return expired;
        }
        rec := Find(rows, st);
      }
    }

    method MarkOverdue(st: State, now: nat) returns (rec: Option<Row>)
      modifies this
      ensures Outcome(rows, rec) == MarkExpired(old(rows), st, now)
      ensures OnlyRowChanged(old(rows), rows, st)
      ensures rec.Some? <==> st in old(rows) && old(rows)[st].status.Pending? && old(rows)[st].expiresAt < now / NANOS
    {
      rec := None;
      if st in rows && Overdue(rows[st], now) {
        rows := rows[st := rows[st].(status := Expired, updatedAt := Unix(now))];
        rec := Some(rows[st]);
      }
    }

    method CompleteRequest(st: State, user: UserId, env: Envelope, now: nat) returns (rec: Option<Row>)
      modifies this
      ensures Outcome(rows, rec) == Complete(old(rows), st, user, env, now)
      ensures OnlyRowChanged(old(rows), rows, st) && (rec.None? ==> rows == old(rows))
      ensures rec.Some? <==>
                && st in old(rows) && old(rows)[st].userId == user
                && old(rows)[st].status.Pending? && now / NANOS <= old(rows)[st].expiresAt
      ensures rec.Some? ==>
                && st in rows && rows[st] == rec.value
                && rec.value == old(rows)[st].(status := Completed, updatedAt := now / NANOS, result := Some(env))
    {
      rec := None;
      if st in rows {
        var row := rows[st];
        if row.userId == user && row.status.Pending? && row.expiresAt >= Unix(now) {
          row := row.(status := Completed, updatedAt := Unix(now), result := Some(env));
          rows := rows[st := row];
          rec := Some(row);
        }
      }
    }

    method CancelRequest(st: State, user: UserId, now: nat) returns (rec: Option<Row>)
      modifies this
      ensures Outcome(rows, rec) == Cancel(old(rows), st, user, now)
      ensures OnlyRowChanged(old(rows), rows, st) && (rec.None? ==> rows == old(rows))
      ensures rec.Some? <==> st in old(rows) && old(rows)[st].userId == user && old(rows)[st].status.Pending?
      ensures rec.Some? ==>
                && st in rows && rows[st] == rec.value
                && rec.value == old(rows)[st].(status := Canceled, updatedAt := now / NANOS)
    {
      rec := None;
      if st in rows {
        var row := rows[st];
        if row.userId == user && row.status.Pending? {
          row := row.(status := Canceled, updatedAt := Unix(now));
          rows := rows[st := row];
          rec := Some(row);
        }
      }
    }

    method GetAndDeleteTerminalRequest(st: State, now: nat) returns (rec: Option<Row>)
      modifies this
      ensures Outcome(rows, rec) == TakeTerminal(old(rows), st, now)
      ensures OnlyRowChanged(old(rows), rows, st) && (rec.None? ==> rows == old(rows))
      ensures rec.Some? <==>
                st in old(rows) && (!old(rows)[st].status.Pending? || old(rows)[st].expiresAt < now / NANOS)
      ensures rec.Some? ==> st !in rows
      ensures rec.Some? && !old(rows)[st].status.Pending? ==> rec.value == old(rows)[st]
      ensures rec.Some? && old(rows)[st].status.Pending? ==>
                rec.value == old(rows)[st].(status := Expired, updatedAt := now / NANOS)
    {
      rec := None;
      if st in rows {
        var row := rows[st];
        if !row.status.Pending? || row.expiresAt < Unix(now) {
          rows := rows - {st};
          rec := Some(if row.status.Pending? then AsExpired(row, now) else row);
        }
      }
    }

    /** Expires every overdue row of every user, then lists the pending ones: the caller's, or
        everybody's when no user is given. A failed sweep is ignored and leaves the table as it was. */
    method ListPending(user: Option<UserId>, now: nat, sweepFails: bool) returns (states: set<State>)
      modifies this
      ensures rows == if sweepFails then old(rows) else ExpirePending(old(rows), now)
      ensures states == Listed(rows, user)
      ensures forall st :: st in states ==> rows[st] == old(rows)[st] && (user.Some? ==> rows[st].userId == user.value)
      ensures forall st :: st in states <==>
                && st in old(rows) && old(rows)[st].status.Pending?
                && (sweepFails || now / NANOS <= old(rows)[st].expiresAt)
                && (user.Some? ==> old(rows)[st].userId == user.value)
    {
      if !sweepFails {
        rows := map st | st in rows :: if Overdue(rows[st], now) then AsExpired(rows[st], now) else rows[st];
      }
      states := set st | st in rows && rows[st].status.Pending?;
      if user.Some? {
        states := set st | st in states && rows[st].userId == user.value;
      }
    }

    method DeleteTerminalRequest(st: State, cutoff: Option<int>)
      modifies this
      ensures rows == DeleteTerminal(old(rows), st, cutoff)
      ensures OnlyRowChanged(old(rows), rows, st)
      ensures st in rows <==>
                st in old(rows) &&
                (old(rows)[st].status.Pending? || (cutoff.Some? && cutoff.value <= old(rows)[st].expiresAt))
      ensures st in rows ==> rows == old(rows)
    {
      if st in rows && !rows[st].status.Pending? {
        if cutoff.None? || rows[st].expiresAt < cutoff.value {
          rows := rows - {st};
        }
      }
    }

    method CleanupOldRecords(cutoff: int)
      modifies this
      ensures rows == CleanupOld(old(rows), cutoff)
      ensures forall st :: st in rows <==>
                st in old(rows) && (old(rows)[st].status.Pending? || cutoff <= old(rows)[st].expiresAt)
      ensures forall st :: st in rows ==> rows[st] == old(rows)[st]
    {
      rows := rows - (set st | st in rows && !rows[st].status.Pending? && rows[st].expiresAt < cutoff);
    }
  }
}
