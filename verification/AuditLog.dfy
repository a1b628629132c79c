/** The audit log: paging through an ordered table with a cursor while rows come and go. */
module AuditLog {
  import opened Prelude

  /** Ids are time-ordered UUIDs, compared as numbers. */
  type Id = nat

  datatype AuthMethod = Session | RequestKey | System | Anonymous

  const EVENT_TYPES: set<string> := {
    "auth.register_finish", "auth.finalize_signup", "auth.login_finish", "auth.logout",
    "auth.request_key_regenerate", "auth.allowed_ips_change", "auth.display_name_change",
    "auth.wrapped_key_update", "auth.credential_add_finish", "auth.credential_rename",
    "auth.credential_delete", "request.create", "request.confirm", "request.cancel", "request.expire",
    "signing_key.create", "signing_key.publish", "signing_key.unpublish", "signing_key.delete",
    "signing_key.auto_store"}

  datatype Error = FilterConflict | InvalidEventType | InvalidCursor

  datatype Event = Event(createdAt: int, kind: string, auth: AuthMethod, actor: Option<string>)

  type Table = map<Id, Event>

  datatype Filter = Filter(user: string, system: bool, kind: string, since: int, until: int)

  /** The conjunction of the filter's clauses; an empty member adds no clause. */
  predicate Matches(e: Event, f: Filter) {
    && (f.user != "" ==> e.actor == Some(f.user))
    && (f.system ==> e.auth == System)
    && (f.kind != "" ==> e.kind == f.kind)
    && (f.since > 0 ==> e.createdAt >= f.since)
    && (f.until > 0 ==> e.createdAt <= f.until)
  }

  predicate Before(id: Id, cursor: Option<Id>) {
    cursor.Some? ==> id < cursor.value
  }

  /** The matching rows below the cursor. */
  function Selected(t: Table, f: Filter, cursor: Option<Id>): set<Id> {
    set id | id in t && Matches(t[id], f) && Before(id, cursor)
  }

  predicate Descending(ids: seq<Id>) {
    forall i, j :: 0 <= i < j < |ids| ==> ids[i] > ids[j]
  }

  predicate IsLargest(ids: set<Id>, m: Id) {
    m in ids && forall x :: x in ids ==> x <= m
  }

  function Largest(ids: set<Id>): (m: Id)
    requires ids != {}
    ensures IsLargest(ids, m)
  {
    HasLargest(ids);
    var m :| IsLargest(ids, m);
    m
  }

  lemma {:induction false} HasLargest(ids: set<Id>)
    requires ids != {}
    ensures exists m :: IsLargest(ids, m)
    decreases |ids|
  {
    var a :| a in ids;
    var others := ids - {a};
    assert ids == others + {a};
    if others == {} {
      assert IsLargest(ids, a);
    } else {
      assert |others| < |ids|;
      HasLargest(others);
      var m :| IsLargest(others, m);
      assert IsLargest(ids, if m < a then a else m);
    }
  }

  /** `ORDER BY id DESC LIMIT n`. */
  function Newest(ids: set<Id>, n: nat): seq<Id>
    decreases n
  {
    if n == 0 || ids == {} then [] else [Largest(ids)] + Newest(ids - {Largest(ids)}, n - 1)
  }

  lemma {:induction false} NewestAreTheLargest(ids: set<Id>, n: nat)
    ensures var r := Newest(ids, n);
            && |r| == (if |ids| < n then |ids| else n)
            && Descending(r)
            && (forall i :: 0 <= i < |r| ==> r[i] in ids)
            && (forall x, i :: x in ids && 0 <= i < |r| && x >= r[i] ==> x in r)
            && (|r| < n ==> forall x :: x in ids ==> x in r)
    decreases n
  {
    if n > 0 && ids != {} {
      var m := Largest(ids);
      NewestAreTheLargest(ids - {m}, n - 1);
      assert |ids - {m}| == |ids| - 1;
      LargestFirst(ids, m, Newest(ids - {m}, n - 1), n);
    }
  }

  lemma LargestFirst(ids: set<Id>, m: Id, rest: seq<Id>, n: nat)
    requires m in ids && n > 0 && forall x :: x in ids ==> x <= m
    requires Descending(rest) && forall i :: 0 <= i < |rest| ==> rest[i] in ids - {m}
    requires forall x, i :: x in ids - {m} && 0 <= i < |rest| && x >= rest[i] ==> x in rest
    requires |rest| < n - 1 ==> forall x :: x in ids - {m} ==> x in rest
    ensures var r := [m] + rest;
            && Descending(r)
            && (forall i :: 0 <= i < |r| ==> r[i] in ids)
            && (forall x, i :: x in ids && 0 <= i < |r| && x >= r[i] ==> x in r)
            && (|r| < n ==> forall x :: x in ids ==> x in r)
  {
    var r := [m] + rest;
    forall x, i | x in ids && 0 <= i < |r| && x >= r[i] ensures x in r {
      if i == 0 {
        assert x == m == r[0];
      } else {
        assert r[i] == rest[i - 1];
        assert x != m ==> x in ids - {m};
      }
    }
    forall x | x in ids && |r| < n ensures x in r {
      assert x == m || x in ids - {m};
    }
  }

  function Clamp(limit: int): (n: nat)
    ensures 1 <= limit <= 500 ==> n == limit
    ensures (limit <= 0 ==> n == 50) && (limit > 500 ==> n == 500)
  {
    if limit <= 0 then 50 else if limit > 500 then 500 else limit
  }

  /** The version of a UUID (section 4.2 of RFC 9562): the high four bits of its seventh byte. */
  function Version(id: Id): nat {
    id / 0x1000_0000_0000_0000_0000 % 16
  }

  /** Read off the bytes of the id, the first of them the highest. */
  lemma VersionIsInSeventhByte(firstSix: nat, seventh: Byte, lastNine: nat)
    requires lastNine < 0x1_0000_0000_0000_0000_00
    ensures Version((firstSix * 256 + seventh) * 0x1_0000_0000_0000_0000_00 + lastNine) == seventh / 16
  {
    var id := (firstSix * 256 + seventh) * 0x1_0000_0000_0000_0000_00 + lastNine;
    assert id / 0x1000_0000_0000_0000_0000 == firstSix * 16 + seventh / 16;
  }

  /** A cursor is empty or an id of version 7; reading UUIDs is left to a library. */
  function CheckCursor(cursor: string, parse: string -> Option<Id>): Result<Option<Id>, Error> {
    if cursor == "" then Ok(None)
    else if parse(cursor).None? || Version(parse(cursor).value) != 7 then Err(InvalidCursor)
    else Ok(parse(cursor))
  }

  function CheckFilter(f: Filter): Option<Error> {
    if f.user != "" && f.system then Some(FilterConflict)
    else if f.kind != "" && f.kind !in EVENT_TYPES then Some(InvalidEventType)
    else None
  }

  datatype Page = Page(rows: seq<Id>, next: Option<Id>)

  /** One page, and the cursor of the next one if there is one. */
  function PageOf(t: Table, f: Filter, limit: nat, cursor: Option<Id>): Page
    requires limit > 0
  {
    var found := Newest(Selected(t, f, cursor), limit + 1);
    if |found| > limit then Page(found[..limit], Some(found[limit - 1])) else Page(found, None)
  }

  class AuditStore {
    var rows: Table

    constructor ()
      ensures rows == map[]
    {
      rows := map[];
    }

    method Insert(id: Id, e: Event) returns (ok: bool)
      modifies this
      ensures ok == (id !in old(rows)) && rows == if ok then old(rows)[id := e] else old(rows)
    {
      ok := id !in rows;
      if ok {
        rows := rows[id := e];
      }
    }

    method PruneBefore(threshold: int) returns (removed: nat)
      modifies this
      ensures rows == map id | id in old(rows) && old(rows)[id].createdAt >= threshold :: old(rows)[id]
      ensures removed == |old(rows)| - |rows|
    {
      var kept := map id | id in rows && rows[id].createdAt >= threshold :: rows[id];
      Fewer(kept.Keys, rows.Keys);
      removed := |rows| - |kept|;
      rows := kept;
    }

    /** Fetches one row more than the limit, and drops it again. */
    method List(f: Filter, limit: int, cursor: string, parse: string -> Option<Id>) returns (r: Result<Page, Error>)
      ensures r.Ok? <==> CheckFilter(f).None? && CheckCursor(cursor, parse).Ok?
      ensures r.Ok? ==> r.value == PageOf(rows, f, Clamp(limit), CheckCursor(cursor, parse).value)
      ensures r.Ok? ==> |r.value.rows| <= 500 && forall id :: id in r.value.rows ==> id in rows && Asked(rows[id], f)
      ensures r.Ok? && cursor != "" ==>
                parse(cursor).Some? && forall id :: id in r.value.rows ==> id < parse(cursor).value
      ensures r.Ok? && r.value.next.None? ==>
                forall id :: id in rows && Asked(rows[id], f) && (cursor != "" ==> id < parse(cursor).value) ==>
                  id in r.value.rows
      ensures r == Err(FilterConflict) <==> f.user != "" && f.system
      ensures r == Err(InvalidEventType) <==> !(f.user != "" && f.system) && f.kind != "" && f.kind !in EVENT_TYPES
      ensures r == Err(InvalidCursor) <==>
                && CheckFilter(f).None? && cursor != ""
                && !(parse(cursor).Some? && Version(parse(cursor).value) == 7)
    {
      var n := Clamp(limit);
      if f.user != "" && f.system {
        return Err(FilterConflict);
      }
      if f.kind != "" && f.kind !in EVENT_TYPES {
        return Err(InvalidEventType);
      }
      var from :- CheckCursor(cursor, parse);
      PageShowsWhatWasAsked(rows, f, n, from);
      var out := Newest(Selected(rows, f, from), n + 1);
      var next := None;
      if |out| > n {
        var last := out[n - 1];
        out := out[..n];
        next := Some(last);
      }
      return Ok(Page(out, next));
    }
  }

  lemma Fewer(a: set<Id>, b: set<Id>)
    requires a <= b
    ensures |a| <= |b|
  {
    assert a + (b - a) == b;
  }

  // ---------------------------------------------------------------------------
  // Walking the pages
  // ---------------------------------------------------------------------------

  datatype Walked = Walked(rows: seq<Id>, ended: bool)

  /** Following the cursor, where `tables` are the states of the log at each request: rows may be
      inserted and pruned between them. */
  function Walk(tables: seq<Table>, f: Filter, limit: nat, cursor: Option<Id>): Walked
    requires limit > 0
    decreases |tables|
  {
    if tables == [] then Walked([], false)
    else
      var page := PageOf(tables[0], f, limit, cursor);
      if page.next.None? then Walked(page.rows, true)
      else
        var rest := Walk(tables[1..], f, limit, page.next);
        Walked(page.rows + rest.rows, rest.ended)
  }

  /** A page returns every selected row from the next cursor up, and goes on strictly below. */
  lemma PageIsComplete(t: Table, f: Filter, limit: nat, cursor: Option<Id>)
    requires limit > 0
    ensures var page := PageOf(t, f, limit, cursor);
            && Descending(page.rows)
            && (forall i :: 0 <= i < |page.rows| ==>
                  page.rows[i] in Selected(t, f, cursor) && (page.next.Some? ==> page.rows[i] >= page.next.value))
            && (forall x: Id :: x in Selected(t, f, cursor) && !(page.next.Some? && x < page.next.value) ==>
                  x in page.rows)
            && (page.next.Some? ==> Before(page.next.value, cursor) && |page.rows| == limit)
  {
    var selected := Selected(t, f, cursor);
    var found := Newest(selected, limit + 1);
    NewestAreTheLargest(selected, limit + 1);
    if |found| > limit {
      CutKeepsTheLargest(found, limit);
    }
  }

  lemma CutKeepsTheLargest(found: seq<Id>, limit: nat)
    requires Descending(found) && 0 < limit < |found|
    ensures Descending(found[..limit]) && forall i :: 0 <= i < limit ==> found[i] >= found[limit - 1]
    ensures forall x :: x in found && x >= found[limit - 1] ==> x in found[..limit]
  {
    forall x | x in found && x >= found[limit - 1] ensures x in found[..limit] {
      var i :| 0 <= i < |found| && found[i] == x;
      assert i < limit;
      assert found[..limit][i] == x;
    }
  }

  predicate Stays(tables: seq<Table>, f: Filter, id: Id) {
    forall i :: 0 <= i < |tables| ==> id in tables[i] && Matches(tables[i][id], f)
  }

  predicate Seen(tables: seq<Table>, f: Filter, id: Id) {
    exists i :: 0 <= i < |tables| && id in tables[i] && Matches(tables[i][id], f)
  }

  /** Whatever changes meanwhile, a walk returns rows in strictly descending order, so none twice,
      only rows that matched when their page was read, and, once it has ended, every matching row
      that was there throughout. */
  lemma {:induction false} WalkReturnsLastingRowsOnce(tables: seq<Table>, f: Filter, limit: nat, cursor: Option<Id>)
    requires limit > 0
    ensures var w := Walk(tables, f, limit, cursor);
            && Descending(w.rows)
            && (forall i :: 0 <= i < |w.rows| ==> Before(w.rows[i], cursor) && Seen(tables, f, w.rows[i]))
            && (w.ended ==> forall id: Id :: Stays(tables, f, id) && Before(id, cursor) ==> id in w.rows)
    decreases |tables|
  {
    if tables != [] {
      var page := PageOf(tables[0], f, limit, cursor);
      PageIsComplete(tables[0], f, limit, cursor);
      forall i | 0 <= i < |page.rows| ensures Seen(tables, f, page.rows[i]) {
        assert page.rows[i] in tables[0];
      }
      if page.next.Some? {
        WalkReturnsLastingRowsOnce(tables[1..], f, limit, page.next);
        LaterPages(tables, f, page.rows, Walk(tables[1..], f, limit, page.next), page.next.value, cursor);
      }
    }
  }

  lemma LaterPages(
      tables: seq<Table>, f: Filter, rows: seq<Id>, rest: Walked, next: Id, cursor: Option<Id>)
    requires tables != [] && Descending(rows) && Descending(rest.rows) && Before(next, cursor)
    requires forall i :: 0 <= i < |rows| ==> rows[i] >= next
    requires forall i :: 0 <= i < |rest.rows| ==> rest.rows[i] < next && Seen(tables[1..], f, rest.rows[i])
    requires rest.ended ==> forall id: Id :: Stays(tables[1..], f, id) && id < next ==> id in rest.rows
    ensures Descending(rows + rest.rows)
    ensures forall i :: 0 <= i < |rest.rows| ==> Before(rest.rows[i], cursor) && Seen(tables, f, rest.rows[i])
    ensures rest.ended ==> forall id: Id :: Stays(tables, f, id) && id < next ==> id in rest.rows
  {
    forall i | 0 <= i < |rest.rows| ensures Seen(tables, f, rest.rows[i]) {
      var k :| 0 <= k < |tables[1..]| && rest.rows[i] in tables[1..][k] && Matches(tables[1..][k][rest.rows[i]], f);
      assert tables[k + 1] == tables[1..][k];
    }
    forall id: Id | Stays(tables, f, id) ensures Stays(tables[1..], f, id) {
    }
  }

  // ---------------------------------------------------------------------------
  // What a page may show
  // ---------------------------------------------------------------------------

  /** The caller asked for this event: it is the given user's, the system's, of the given kind and
      within the given bounds, as far as they are given. */
  predicate Asked(e: Event, f: Filter) {
    && (f.user == "" || (e.actor.Some? && e.actor.value == f.user))
    && (!f.system || e.auth == System)
    && (f.kind == "" || f.kind == e.kind)
    && (f.since <= 0 || f.since <= e.createdAt)
    && (f.until <= 0 || e.createdAt <= f.until)
  }

  /** A page shows stored events that were asked for, all below its cursor, and every other such
      event is left for a later page. */
  lemma PageShowsWhatWasAsked(t: Table, f: Filter, limit: nat, cursor: Option<Id>)
    requires limit > 0
    ensures var page := PageOf(t, f, limit, cursor);
            && (forall id :: id in page.rows ==>
                  id in t && Asked(t[id], f) && (cursor.Some? ==> id < cursor.value))
            && (forall id :: id in t && Asked(t[id], f) && (cursor.Some? ==> id < cursor.value) ==>
                  id in page.rows || (page.next.Some? && id < page.next.value))
            && |page.rows| <= limit
  {
    PageIsComplete(t, f, limit, cursor);
    NewestAreTheLargest(Selected(t, f, cursor), limit + 1);
    forall id | id in t && Asked(t[id], f) && (cursor.Some? ==> id < cursor.value)
      ensures id in Selected(t, f, cursor)
    {
    }
  }

  /** Some of the states shows the event as one that was asked for. */
  predicate ShownBy(tables: seq<Table>, f: Filter, id: Id) {
    exists i :: 0 <= i < |tables| && id in tables[i] && Asked(tables[i][id], f)
  }

  /** Likewise for a whole walk: nobody is shown an event that was not asked for when its page was
      read, and once the walk has ended every event that was asked for throughout was shown. */
  lemma WalkShowsWhatWasAsked(tables: seq<Table>, f: Filter, limit: nat)
    requires limit > 0
    ensures var w := Walk(tables, f, limit, None);
            && (forall id :: id in w.rows ==> ShownBy(tables, f, id))
            && (w.ended ==>
                  forall id: Id :: (forall i :: 0 <= i < |tables| ==> id in tables[i] && Asked(tables[i][id], f)) ==>
                    id in w.rows)
  {
    WalkReturnsLastingRowsOnce(tables, f, limit, None);
    var w := Walk(tables, f, limit, None);
    forall id | id in w.rows ensures ShownBy(tables, f, id) {
      var k :| 0 <= k < |w.rows| && w.rows[k] == id;
      assert Seen(tables, f, w.rows[k]);
    }
    forall id: Id | forall i :: 0 <= i < |tables| ==> id in tables[i] && Asked(tables[i][id], f)
      ensures Stays(tables, f, id)
    {
    }
  }

  // ---------------------------------------------------------------------------
  // How many pages
  // ---------------------------------------------------------------------------

  function PagesFor(n: nat, limit: nat): nat
    requires limit > 0
  {
    if n <= limit then 1 else 1 + PagesFor(n - limit, limit)
  }

  /** That is max(1, ceil(n / limit)): the least number of pages, and at least one, that holds `n`. */
  lemma {:induction false} PagesForIsCeiling(n: nat, limit: nat)
    requires limit > 0
    ensures var p := PagesFor(n, limit); p >= 1 && n <= p * limit && (p > 1 ==> (p - 1) * limit < n)
  {
    if n > limit {
      PagesForIsCeiling(n - limit, limit);
      var p := PagesFor(n - limit, limit);
      assert (p + 1) * limit == p * limit + limit;
      assert p > 1 ==> p * limit == (p - 1) * limit + limit;
    }
  }

  /** Over a table that does not change, a walk of `N` matches ends with the page that is
      max(1, ceil(N / limit)), and not before, and returns all of them. */
  lemma {:induction false} PageCount(t: Table, f: Filter, limit: nat, cursor: Option<Id>, k: nat)
    requires limit > 0
    ensures var n := |Selected(t, f, cursor)|;
            var w := Walk(Repeat(t, k), f, limit, cursor);
            && (w.ended <==> k >= PagesFor(n, limit))
            && (w.ended ==> |w.rows| == n)
    decreases k
  {
    if k == 0 {
      PagesForIsCeiling(|Selected(t, f, cursor)|, limit);
    } else {
      WalkBegins(t, Repeat(t, k - 1), f, limit, cursor);
      if |Selected(t, f, cursor)| > limit {
        RestAfterPage(t, f, limit, cursor);
        PageCount(t, f, limit, PageOf(t, f, limit, cursor).next, k - 1);
      } else {
        NewestAreTheLargest(Selected(t, f, cursor), limit + 1);
      }
    }
  }

  lemma WalkBegins(t: Table, more: seq<Table>, f: Filter, limit: nat, cursor: Option<Id>)
    requires limit > 0
    ensures var page := PageOf(t, f, limit, cursor);
            var rest := Walk(more, f, limit, page.next);
            Walk([t] + more, f, limit, cursor) ==
              if page.next.None? then Walked(page.rows, true) else Walked(page.rows + rest.rows, rest.ended)
  {
    assert ([t] + more)[1..] == more;
  }

  /** The same table at each of `k` requests. */
  function Repeat(t: Table, k: nat): seq<Table> {
    if k == 0 then [] else [t] + Repeat(t, k - 1)
  }

  lemma RestAfterPage(t: Table, f: Filter, limit: nat, cursor: Option<Id>)
    requires limit > 0 && |Selected(t, f, cursor)| > limit
    ensures var page := PageOf(t, f, limit, cursor);
            page.next.Some? && |page.rows| == limit && |Selected(t, f, page.next)| == |Selected(t, f, cursor)| - limit
  {
    var all := Selected(t, f, cursor);
    var page := PageOf(t, f, limit, cursor);
    PageIsComplete(t, f, limit, cursor);
    NewestAreTheLargest(all, limit + 1);
    DistinctCount(page.rows);
    var rows, rest := Elements(page.rows), Selected(t, f, page.next);
    assert all == rows + rest && rows * rest == {};
    assert |rows + rest| == |rows| + |rest|;
  }

  function Elements(ids: seq<Id>): set<Id> {
    set x | x in ids
  }

  lemma {:induction false} DistinctCount(ids: seq<Id>)
    requires Descending(ids)
    ensures |Elements(ids)| == |ids|
    decreases |ids|
  {
    if ids == [] {
      assert Elements(ids) == {};
    } else {
      var last := |ids| - 1;
      var front, id := ids[..last], ids[last];
      DistinctCount(front);
      assert id !in front;
      assert ids == front + [id];
      assert Elements(ids) == Elements(front) + {id};
    }
  }
}
