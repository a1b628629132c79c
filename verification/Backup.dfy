/** Dumping tables into a stream of items and restoring them into another engine. */
module Backup {
  import opened Cells
  import opened Prelude

  // ---------------------------------------------------------------------------
  // The stream of a backup
  // ---------------------------------------------------------------------------

  type Name = string

  datatype Column = Column(name: Name, kind: Kind)

  datatype Spec = Spec(name: Name, columns: seq<Column>)

  function Names(columns: seq<Column>): seq<Name> {
    seq(|columns|, i requires 0 <= i < |columns| => columns[i].name)
  }

  predicate Distinct(columns: seq<Column>) {
    forall i, j :: 0 <= i < j < |columns| ==> columns[i].name != columns[j].name
  }

  datatype Item = TableStart(name: Name, columns: seq<Name>) | Row(values: seq<Portable>) | End

  /** A source table: its rows have one raw value a column. */
  datatype Table = Table(spec: Spec, rows: seq<seq<Raw>>) {
    predicate Valid() {
      Distinct(spec.columns) && forall i :: 0 <= i < |rows| ==> |rows[i]| == |spec.columns|
    }
  }

  function RowItem(row: seq<Raw>, columns: seq<Column>, codecs: Codecs): Item
    requires |row| == |columns|
  {
    Row(seq(|row|, i requires 0 <= i < |row| => Normalize(row[i], columns[i].kind, codecs)))
  }

  function RowItems(t: Table, first: nat, codecs: Codecs): seq<Item>
    requires t.Valid() && first <= |t.rows|
    decreases |t.rows| - first
  {
    if first == |t.rows| then [End]
    else [RowItem(t.rows[first], t.spec.columns, codecs)] + RowItems(t, first + 1, codecs)
  }

  /** Header, rows in order, and the null that ends the table. */
  function Dump(t: Table, codecs: Codecs): seq<Item>
    requires t.Valid()
  {
    [TableStart(t.spec.name, Names(t.spec.columns))] + RowItems(t, 0, codecs)
  }

  predicate AllValid(tables: seq<Table>) {
    forall i :: 0 <= i < |tables| ==> tables[i].Valid()
  }

  function DumpAll(tables: seq<Table>, codecs: Codecs): seq<Item>
    requires AllValid(tables)
  {
    if tables == [] then [] else Dump(tables[0], codecs) + DumpAll(tables[1..], codecs)
  }

  class Encoder {
    var items: seq<Item>

    constructor ()
      ensures items == []
    {
      items := [];
    }

    method Encode(item: Item)
      modifies this
      ensures items == old(items) + [item]
    {
      items := items + [item];
    }

    /** Streams one table, a row at a time. */
    method DumpTable(t: Table, codecs: Codecs)
      requires t.Valid()
      modifies this
      ensures items == old(items) + Dump(t, codecs)
    {
      Encode(TableStart(t.spec.name, Names(t.spec.columns)));
      ghost var start := items;
      for r := 0 to |t.rows|
        invariant items + RowItems(t, r, codecs) == start + RowItems(t, 0, codecs)
      {
        var row := [];
        for i := 0 to |t.rows[r]|
          invariant row == RowItem(t.rows[r], t.spec.columns, codecs).values[..i]
        {
          row := row + [Normalize(t.rows[r][i], t.spec.columns[i].kind, codecs)];
        }
        assert Row(row) == RowItem(t.rows[r], t.spec.columns, codecs);
        Encode(Row(row));
      }
      Encode(End);
      assert items == start + RowItems(t, 0, codecs);
    }

    method RunBackup(tables: seq<Table>, codecs: Codecs)
      requires AllValid(tables)
      modifies this
      ensures items == old(items) + DumpAll(tables, codecs)
    {
      ghost var start := items;
      for i := 0 to |tables|
        invariant items + DumpAll(tables[i..], codecs) == start + DumpAll(tables, codecs)
      {
        DumpTable(tables[i], codecs);
        assert tables[i..][1..] == tables[i + 1..];
      }
      assert tables[|tables|..] == [];
    }
  }

  // ---------------------------------------------------------------------------
  // Restoring
  // ---------------------------------------------------------------------------

  datatype Error = Truncated | Malformed | UnknownColumn | RowLength | Refused

  /** A stored row: what its columns hold. */
  type Record = map<Name, Cell>

  /** Restored tables: rows in insertion order. */
  type Database = map<Name, seq<Record>>

  function RowsOf(db: Database, name: Name): seq<Record> {
    if name in db then db[name] else []
  }

  /** The kind the target's schema gives a column. */
  function KindOf(columns: seq<Column>, name: Name): Option<Kind> {
    if columns == [] then None
    else if columns[0].name == name then Some(columns[0].kind)
    else KindOf(columns[1..], name)
  }

  /** The kind of the first column of that name. */
  lemma {:induction false} KindOfIs(columns: seq<Column>, name: Name, i: nat)
    requires i <= |columns| && forall j :: 0 <= j < i ==> columns[j].name != name
    ensures i < |columns| && columns[i].name == name ==> KindOf(columns, name) == Some(columns[i].kind)
    ensures i == |columns| ==> KindOf(columns, name) == None
    decreases i
  {
    if i > 0 {
      KindOfIs(columns[1..], name, i - 1);
    }
  }

  predicate Recognized(names: seq<Name>, spec: Spec) {
    forall i :: 0 <= i < |names| ==> KindOf(spec.columns, names[i]).Some?
  }

  datatype Target = Target(engine: Engine, known: map<Name, Spec>, codecs: Codecs)

  /** What the columns of a new row hold: none where the engine refuses the value. */
  function Columns(names: seq<Name>, values: seq<Portable>, spec: Spec, target: Target): seq<Option<Cell>>
    requires |names| == |values| && Recognized(names, spec)
  {
    seq(|names|, i requires 0 <= i < |names| =>
      var kind := KindOf(spec.columns, names[i]).value;
      Insert(Coerce(values[i], kind, target.engine), kind, target.engine, target.codecs))
  }

  /** The new row of an insert that names these columns; a column named twice is refused as well. */
  function NewRow(names: seq<Name>, columns: seq<Option<Cell>>): Result<Record, Error>
    requires |names| == |columns|
    decreases |names|
  {
    if names == [] then Ok(map[])
    else
      var last := |names| - 1;
      WithColumn(NewRow(names[..last], columns[..last]), names[last], columns[last])
  }

  function WithColumn(before: Result<Record, Error>, name: Name, cell: Option<Cell>): Result<Record, Error> {
    var record :- before;
    if cell.None? || name in record then Err(Refused) else Ok(record[name := cell.value])
  }

  /** Decoding a table header: a null decodes to a header without name and columns. */
  function AsHeader(item: Item): Option<(Name, seq<Name>)> {
    match item
    case TableStart(name, columns) => Some((name, columns))
    case End => Some(("", []))
    case Row(_) => None
  }

  datatype Progress = Progress(db: Database, rest: seq<Item>)

  /** The rows of one table, up to its end. */
  function RestoreRows(items: seq<Item>, name: Name, names: seq<Name>, db: Database, target: Target)
    : Result<Progress, Error>
    requires name in target.known ==> Recognized(names, target.known[name])
    decreases |items|
  {
    if items == [] then Err(Truncated)
    else
      match items[0]
      case End => Ok(Progress(db, items[1..]))
      case TableStart(_, _) => Err(Malformed)
      case Row(values) =>
        if name !in target.known then RestoreRows(items[1..], name, names, db, target)
        else if |values| != |names| then Err(RowLength)
        else
          var row :- NewRow(names, Columns(names, values, target.known[name], target));
          RestoreRows(items[1..], name, names, db[name := RowsOf(db, name) + [row]], target)
  }

  function RestoreBlock(items: seq<Item>, db: Database, target: Target): Result<Progress, Error> {
    if items == [] then Err(Truncated)
    else
      var header := AsHeader(items[0]);
      if header.None? then Err(Malformed)
      else
        var (name, names) := header.value;
        if name in target.known && !Recognized(names, target.known[name]) then Err(UnknownColumn)
        else RestoreRows(items[1..], name, names, db, target)
  }

  function RestoreAll(items: seq<Item>, count: nat, db: Database, target: Target)
    : Result<Progress, Error>
    decreases count
  {
    if count == 0 then Ok(Progress(db, items))
    else
      var block :- RestoreBlock(items, db, target);
      RestoreAll(block.rest, count - 1, block.db, target)
  }

  class Restorer {
    const target: Target
    var rest: seq<Item>
    var db: Database

    constructor (items: seq<Item>, db: Database, target: Target)
      ensures rest == items && this.db == db && this.target == target
    {
      rest, this.db, this.target := items, db, target;
    }

    /** Reads one table block and inserts its rows as they come. */
    method RestoreTableBlock() returns (error: Option<Error>)
      modifies this
      ensures var r := RestoreBlock(old(rest), old(db), target);
              if r.Ok? then error.None? && db == r.value.db && rest == r.value.rest else error == Some(r.error)
    {
      if rest == [] {
        return Some(Truncated);
      }
      var header := AsHeader(rest[0]);
      if header.None? {
        return Some(Malformed);
      }
      var (name, names) := header.value;
      rest := rest[1..];
      if name in target.known {
        for i := 0 to |names|
          invariant forall j :: 0 <= j < i ==> KindOf(target.known[name].columns, names[j]).Some?
        {
          if KindOf(target.known[name].columns, names[i]).None? {
            return Some(UnknownColumn);
          }
        }
      }
      ghost var r := RestoreRows(rest, name, names, db, target);
      while true
        invariant name in target.known ==> Recognized(names, target.known[name])
        invariant r == RestoreRows(rest, name, names, db, target)
        decreases |rest|
      {
        if rest == [] {
          return Some(Truncated);
        }
        var item := rest[0];
        rest := rest[1..];
        if item.TableStart? {
          return Some(Malformed);
        }
        if item.End? {
          return None;
        }
        if name in target.known {
          if |item.values| != |names| {
            return Some(RowLength);
          }
          var row := NewRow(names, Columns(names, item.values, target.known[name], target));
          if row.Err? {
            return Some(row.error);
          }
          db := db[name := RowsOf(db, name) + [row.value]];
        }
      }
    }

    method RestoreTables(count: nat) returns (error: Option<Error>)
      modifies this
      ensures var r := RestoreAll(old(rest), count, old(db), target);
              if r.Ok? then error.None? && db == r.value.db && rest == r.value.rest else error == Some(r.error)
    {
      for i := 0 to count
        invariant RestoreAll(rest, count - i, db, target) == RestoreAll(old(rest), count, old(db), target)
      {
        error := RestoreTableBlock();
        if error.Some? {
          return;
        }
      }
      return None;
    }
  }

  // ---------------------------------------------------------------------------
  // A restore is the insertion of the dumped rows
  // ---------------------------------------------------------------------------

  /** What the target makes of a dumped row. */
  function Reinserted(row: seq<Raw>, columns: seq<Column>, known: Spec, target: Target): Result<Record, Error>
    requires |row| == |columns| && Recognized(Names(columns), known)
  {
    NewRow(Names(columns), Columns(Names(columns), RowItem(row, columns, target.codecs).values, known, target))
  }

  /** The rows of a table from `first` on, as the target inserts them, or the first refusal. */
  function Inserted(t: Table, first: nat, spec: Spec, target: Target): Result<seq<Record>, Error>
    requires t.Valid() && first <= |t.rows| && Recognized(Names(t.spec.columns), spec)
    decreases |t.rows| - first
  {
    if first == |t.rows| then Ok([])
    else
      InFront(Reinserted(t.rows[first], t.spec.columns, spec, target), Inserted(t, first + 1, spec, target))
  }

  function InFront(row: Result<Record, Error>, rest: Result<seq<Record>, Error>): Result<seq<Record>, Error> {
    var record :- row;
    var records :- rest;
    Ok([record] + records)
  }

  function Appended(db: Database, name: Name, rows: seq<Record>): Database {
    if rows == [] then db else db[name := RowsOf(db, name) + rows]
  }

  /** The table's rows go to its own table of the target, or nowhere when the target has none. */
  function InsertedTable(t: Table, db: Database, target: Target): Result<Database, Error>
    requires t.Valid()
  {
    if t.spec.name !in target.known then Ok(db)
    else if !Recognized(Names(t.spec.columns), target.known[t.spec.name]) then Err(UnknownColumn)
    else
      var rows :- Inserted(t, 0, target.known[t.spec.name], target);
      Ok(Appended(db, t.spec.name, rows))
  }

  function InsertedTables(tables: seq<Table>, db: Database, target: Target): Result<Database, Error>
    requires AllValid(tables)
  {
    if tables == [] then Ok(db)
    else
      var next :- InsertedTable(tables[0], db, target);
      InsertedTables(tables[1..], next, target)
  }

  function Then(r: Result<Database, Error>, rest: seq<Item>): Result<Progress, Error> {
    match r
    case Ok(db) => Ok(Progress(db, rest))
    case Err(e) => Err(e)
  }

  lemma {:induction false} RowsRead(t: Table, first: nat, target: Target, db: Database, rest: seq<Item>)
    requires t.Valid() && first <= |t.rows| && t.spec.name in target.known
    requires Recognized(Names(t.spec.columns), target.known[t.spec.name])
    ensures var rows := Inserted(t, first, target.known[t.spec.name], target);
            RestoreRows(RowItems(t, first, target.codecs) + rest, t.spec.name, Names(t.spec.columns), db, target)
              == if rows.Err? then Err(rows.error) else Ok(Progress(Appended(db, t.spec.name, rows.value), rest))
    decreases |t.rows| - first
  {
    var items := RowItems(t, first, target.codecs) + rest;
    var name, names, spec := t.spec.name, Names(t.spec.columns), target.known[t.spec.name];
    if first == |t.rows| {
      assert items[1..] == rest;
    } else {
      var item := RowItem(t.rows[first], t.spec.columns, target.codecs);
      assert items[0] == item && items[1..] == RowItems(t, first + 1, target.codecs) + rest;
      var row := Reinserted(t.rows[first], t.spec.columns, spec, target);
      if row.Ok? {
        var next := db[name := RowsOf(db, name) + [row.value]];
        RowsRead(t, first + 1, target, next, rest);
        var more := Inserted(t, first + 1, spec, target);
        if more.Ok? {
          Regroup(RowsOf(db, name), [row.value], more.value);
          assert [row.value] + [] == [row.value];
          assert next[name := RowsOf(next, name) + more.value] == db[name := RowsOf(next, name) + more.value];
        }
      }
    }
  }

  /** The rows of a table the target does not know are read past, and nothing else is. */
  lemma {:induction false} RowsSkipped(t: Table, first: nat, target: Target, db: Database, rest: seq<Item>)
    requires t.Valid() && first <= |t.rows| && t.spec.name !in target.known
    ensures RestoreRows(RowItems(t, first, target.codecs) + rest, t.spec.name, Names(t.spec.columns), db, target)
              == Ok(Progress(db, rest))
    decreases |t.rows| - first
  {
    var items := RowItems(t, first, target.codecs) + rest;
    if first == |t.rows| {
      assert items[1..] == rest;
    } else {
      assert items[0] == RowItem(t.rows[first], t.spec.columns, target.codecs);
      assert items[1..] == RowItems(t, first + 1, target.codecs) + rest;
      RowsSkipped(t, first + 1, target, db, rest);
    }
  }

  lemma BlockRead(t: Table, target: Target, db: Database, rest: seq<Item>)
    requires t.Valid()
    ensures RestoreBlock(Dump(t, target.codecs) + rest, db, target) == Then(InsertedTable(t, db, target), rest)
  {
    var items := Dump(t, target.codecs) + rest;
    assert items[0] == TableStart(t.spec.name, Names(t.spec.columns));
    assert items[1..] == RowItems(t, 0, target.codecs) + rest;
    if t.spec.name !in target.known {
      RowsSkipped(t, 0, target, db, rest);
    } else if Recognized(Names(t.spec.columns), target.known[t.spec.name]) {
      RowsRead(t, 0, target, db, rest);
    }
  }

  /** Whatever follows it, the stream of a backup is consumed exactly, and restoring it inserts every
      table's rows, in order, into the table of that name, or stops at the first row refused. */
  lemma {:induction false} RestoreInserts(tables: seq<Table>, target: Target, db: Database, rest: seq<Item>)
    requires AllValid(tables)
    ensures RestoreAll(DumpAll(tables, target.codecs) + rest, |tables|, db, target)
              == Then(InsertedTables(tables, db, target), rest)
    decreases |tables|
  {
    if tables == [] {
      assert DumpAll(tables, target.codecs) + rest == rest;
    } else {
      var t, more := tables[0], tables[1..];
      Regroup(Dump(t, target.codecs), DumpAll(more, target.codecs), rest);
      BlockRead(t, target, db, DumpAll(more, target.codecs) + rest);
      var next := InsertedTable(t, db, target);
      if next.Ok? {
        RestoreInserts(more, target, next.value, rest);
      }
    }
  }

  // ---------------------------------------------------------------------------
  // The round trip
  // ---------------------------------------------------------------------------

  /** The driver of the source may hand out this row for columns that hold these cells. */
  predicate RowHolds(row: seq<Raw>, cells: seq<Cell>, columns: seq<Column>, source: Engine, codecs: Codecs) {
    && |row| == |cells| == |columns|
    && forall j :: 0 <= j < |columns| ==> Represents(row[j], cells[j], columns[j].kind, source, codecs)
  }

  /** Every cell of the row comes through. */
  predicate RowCarries(row: seq<Raw>, cells: seq<Cell>, columns: seq<Column>, source: Engine, target: Target)
    requires |row| == |cells| == |columns|
  {
    forall j :: 0 <= j < |columns| ==>
      Carries(row[j], cells[j], columns[j].kind, source, target.engine, target.codecs)
  }

  /** The record that holds these cells. */
  function RecordOf(names: seq<Name>, cells: seq<Cell>): (r: Record)
    requires |names| == |cells|
    ensures forall name :: name in r ==> name in names
  {
    if names == [] then map[]
    else
      var last := |names| - 1;
      RecordOf(names[..last], cells[..last])[names[last] := cells[last]]
  }

  /** The target gives every column of the source table the same kind. */
  predicate Covers(known: Spec, columns: seq<Column>) {
    forall j :: 0 <= j < |columns| ==> KindOf(known.columns, columns[j].name) == Some(columns[j].kind)
  }

  lemma WithColumnIs(before: Result<Record, Error>, name: Name, cell: Option<Cell>, record: Record, value: Cell)
    requires name !in record
    ensures WithColumn(before, name, cell) == Ok(record[name := value]) <==>
            before == Ok(record) && cell == Some(value)
  {
    if WithColumn(before, name, cell) == Ok(record[name := value]) {
      assert record[name := value][name] == value && before.value[name := cell.value][name] == cell.value;
      assert record == record[name := value] - {name};
      assert before.value == before.value[name := cell.value] - {name};
    }
  }

  lemma {:induction false} NewRowIs(names: seq<Name>, columns: seq<Option<Cell>>, cells: seq<Cell>)
    requires |names| == |columns| == |cells| && forall i, j :: 0 <= i < j < |names| ==> names[i] != names[j]
    ensures NewRow(names, columns) == Ok(RecordOf(names, cells)) <==>
            forall j :: 0 <= j < |cells| ==> columns[j] == Some(cells[j])
    decreases |names|
  {
    if names != [] {
      var last := |names| - 1;
      NewRowIs(names[..last], columns[..last], cells[..last]);
      assert forall j :: 0 <= j < last ==> columns[..last][j] == columns[j] && cells[..last][j] == cells[j];
      WithColumnIs(NewRow(names[..last], columns[..last]), names[last], columns[last],
        RecordOf(names[..last], cells[..last]), cells[last]);
    }
  }

  lemma Recognizes(known: Spec, columns: seq<Column>)
    requires Covers(known, columns)
    ensures Recognized(Names(columns), known)
  {
  }

  /** A row is inserted as the record of its cells exactly when each of them comes through. */
  lemma RowSurvivesIff(
      row: seq<Raw>, cells: seq<Cell>, columns: seq<Column>, source: Engine, known: Spec, target: Target)
    requires target.codecs.Lawful() && Distinct(columns) && Covers(known, columns)
    requires RowHolds(row, cells, columns, source, target.codecs)
    ensures Recognized(Names(columns), known)
    ensures Reinserted(row, columns, known, target) == Ok(RecordOf(Names(columns), cells)) <==>
            RowCarries(row, cells, columns, source, target)
  {
    Recognizes(known, columns);
    var inserted := Columns(Names(columns), RowItem(row, columns, target.codecs).values, known, target);
    forall j | 0 <= j < |cells|
      ensures inserted[j] == Some(cells[j]) <==>
              Carries(row[j], cells[j], columns[j].kind, source, target.engine, target.codecs)
    {
      assert inserted[j] == Carried(row[j], columns[j].kind, target.engine, target.codecs);
      CellSurvivesIff(row[j], cells[j], columns[j].kind, source, target.engine, target.codecs);
    }
    NewRowIs(Names(columns), inserted, cells);
  }

  /** The driver of the source may hand out these rows for a table that holds these cells. */
  predicate Holds(t: Table, cells: seq<seq<Cell>>, source: Engine, codecs: Codecs) {
    && |cells| == |t.rows|
    && forall i :: 0 <= i < |cells| ==> RowHolds(t.rows[i], cells[i], t.spec.columns, source, codecs)
  }

  /** Every cell comes through, from row `first` on. */
  predicate RowsCarry(t: Table, first: nat, cells: seq<seq<Cell>>, source: Engine, target: Target)
    requires Holds(t, cells, source, target.codecs) && first <= |cells|
    decreases |cells| - first
  {
    first < |cells| ==>
      && RowCarries(t.rows[first], cells[first], t.spec.columns, source, target)
      && RowsCarry(t, first + 1, cells, source, target)
  }

  predicate Fit(cells: seq<seq<Cell>>, columns: seq<Column>) {
    forall i :: 0 <= i < |cells| ==> |cells[i]| == |columns|
  }

  function Records(columns: seq<Column>, cells: seq<seq<Cell>>, first: nat): seq<Record>
    requires first <= |cells| && Fit(cells, columns)
    decreases |cells| - first
  {
    if first == |cells| then []
    else [RecordOf(Names(columns), cells[first])] + Records(columns, cells, first + 1)
  }

  lemma InFrontIs(row: Result<Record, Error>, rest: Result<seq<Record>, Error>, record: Record, records: seq<Record>)
    ensures InFront(row, rest) == Ok([record] + records) <==> row == Ok(record) && rest == Ok(records)
  {
    if InFront(row, rest) == Ok([record] + records) {
      var all := [row.value] + rest.value;
      assert all[0] == row.value && ([record] + records)[0] == record;
      assert all[1..] == rest.value && ([record] + records)[1..] == records;
    }
  }

  /** Likewise for the rows of a table, in order. */
  lemma {:induction false} RowsSurviveIff(
      t: Table, first: nat, cells: seq<seq<Cell>>, source: Engine, known: Spec, target: Target)
    requires target.codecs.Lawful() && t.Valid() && first <= |t.rows| && Holds(t, cells, source, target.codecs)
    requires Covers(known, t.spec.columns)
    ensures Recognized(Names(t.spec.columns), known) && Fit(cells, t.spec.columns)
    ensures Inserted(t, first, known, target) == Ok(Records(t.spec.columns, cells, first)) <==>
            RowsCarry(t, first, cells, source, target)
    decreases |t.rows| - first
  {
    if first < |t.rows| {
      var columns := t.spec.columns;
      RowSurvivesIff(t.rows[first], cells[first], columns, source, known, target);
      RowsSurviveIff(t, first + 1, cells, source, known, target);
      InFrontIs(Reinserted(t.rows[first], columns, known, target), Inserted(t, first + 1, known, target),
        RecordOf(Names(columns), cells[first]), Records(columns, cells, first + 1));
    }
  }

  /** The source and the target know the table alike. */
  predicate TableFits(t: Table, cells: seq<seq<Cell>>, source: Engine, target: Target) {
    && t.Valid() && Fit(cells, t.spec.columns) && Holds(t, cells, source, target.codecs)
    && (t.spec.name in target.known ==> Covers(target.known[t.spec.name], t.spec.columns))
  }

  /** A table is restored when the target knows it, and left out when it does not. */
  predicate TableRestored(t: Table, cells: seq<seq<Cell>>, db: Database, target: Target)
    requires Fit(cells, t.spec.columns)
  {
    RowsOf(db, t.spec.name) == if t.spec.name in target.known then Records(t.spec.columns, cells, 0) else []
  }

  /** Every cell comes through, or the target does not know the table. */
  predicate TableCarries(t: Table, cells: seq<seq<Cell>>, source: Engine, target: Target)
    requires TableFits(t, cells, source, target)
  {
    t.spec.name in target.known ==> RowsCarry(t, 0, cells, source, target)
  }

  lemma TableSurvivesIff(t: Table, cells: seq<seq<Cell>>, source: Engine, target: Target, db: Database)
    requires target.codecs.Lawful() && TableFits(t, cells, source, target) && RowsOf(db, t.spec.name) == []
    ensures var r := InsertedTable(t, db, target);
            && (r.Ok? && TableRestored(t, cells, r.value, target) <==> TableCarries(t, cells, source, target))
            && (r.Ok? ==> forall name :: name != t.spec.name ==> RowsOf(r.value, name) == RowsOf(db, name))
  {
    if t.spec.name in target.known {
      RowsSurviveIff(t, 0, cells, source, target.known[t.spec.name], target);
      var rows := Inserted(t, 0, target.known[t.spec.name], target);
      if rows.Ok? {
        assert [] + rows.value == rows.value;
      }
    }
  }

  predicate Dumped(tables: seq<Table>, name: Name) {
    tables != [] && (tables[0].spec.name == name || Dumped(tables[1..], name))
  }

  /** Tables with different names, each with its cells. */
  predicate Restorable(tables: seq<Table>, cells: seq<seq<seq<Cell>>>, source: Engine, target: Target) {
    && |cells| == |tables|
    && (tables != [] ==>
         && TableFits(tables[0], cells[0], source, target)
         && !Dumped(tables[1..], tables[0].spec.name)
         && Restorable(tables[1..], cells[1..], source, target))
  }

  predicate AllRestored(
      tables: seq<Table>, cells: seq<seq<seq<Cell>>>, source: Engine, db: Database, target: Target)
    requires Restorable(tables, cells, source, target)
  {
    tables != [] ==>
      && TableRestored(tables[0], cells[0], db, target)
      && AllRestored(tables[1..], cells[1..], source, db, target)
  }

  predicate AllCarry(tables: seq<Table>, cells: seq<seq<seq<Cell>>>, source: Engine, target: Target)
    requires Restorable(tables, cells, source, target)
  {
    tables != [] ==>
      && TableCarries(tables[0], cells[0], source, target)
      && AllCarry(tables[1..], cells[1..], source, target)
  }

  ghost predicate Unfilled(tables: seq<Table>, db: Database) {
    forall name :: Dumped(tables, name) ==> RowsOf(db, name) == []
  }

  /** Outside the dumped tables, both hold the same rows. */
  ghost predicate OthersKept(tables: seq<Table>, before: Database, after: Database) {
    forall name :: !Dumped(tables, name) ==> RowsOf(after, name) == RowsOf(before, name)
  }

  lemma {:induction false} TablesSurviveIff(
      tables: seq<Table>, cells: seq<seq<seq<Cell>>>, source: Engine, target: Target, db: Database)
    requires target.codecs.Lawful() && AllValid(tables) && Restorable(tables, cells, source, target)
    requires Unfilled(tables, db)
    ensures var r := InsertedTables(tables, db, target);
            && (r.Ok? && AllRestored(tables, cells, source, r.value, target) <==>
                AllCarry(tables, cells, source, target))
            && (r.Ok? ==> OthersKept(tables, db, r.value))
    decreases |tables|
  {
    if tables != [] {
      var t, more := tables[0], tables[1..];
      assert Dumped(tables, t.spec.name);
      TableSurvivesIff(t, cells[0], source, target, db);
      var next := InsertedTable(t, db, target);
      if next.Ok? {
        StillUnfilled(tables, db, next.value);
        TablesSurviveIff(more, cells[1..], source, target, next.value);
        var r := InsertedTables(more, next.value, target);
        if r.Ok? {
          assert RowsOf(r.value, t.spec.name) == RowsOf(next.value, t.spec.name);
          OthersStillKept(tables, db, next.value, r.value);
        }
      }
    }
  }

  lemma StillUnfilled(tables: seq<Table>, db: Database, next: Database)
    requires tables != [] && Unfilled(tables, db) && !Dumped(tables[1..], tables[0].spec.name)
    requires forall name :: name != tables[0].spec.name ==> RowsOf(next, name) == RowsOf(db, name)
    ensures Unfilled(tables[1..], next)
  {
    forall name | Dumped(tables[1..], name) ensures RowsOf(next, name) == [] {
      assert Dumped(tables, name);
    }
  }

  lemma OthersStillKept(tables: seq<Table>, db: Database, next: Database, after: Database)
    requires tables != [] && OthersKept(tables[1..], next, after)
    requires forall name :: name != tables[0].spec.name ==> RowsOf(next, name) == RowsOf(db, name)
    ensures OthersKept(tables, db, after)
  {
    forall name | !Dumped(tables, name) ensures RowsOf(after, name) == RowsOf(db, name) {
      assert !Dumped(tables[1..], name);
    }
  }

  /** The round trip: restoring the stream of a backup, whatever follows it, succeeds and gives every
      table the target knows exactly the source's rows, in order and cell by cell, if and only if
      every cell of such a table comes through. Whenever it succeeds, the stream is consumed exactly
      and tables the backup does not hold are as they were. */
  lemma BackupSurvivesIff(
      tables: seq<Table>, cells: seq<seq<seq<Cell>>>, source: Engine, target: Target, db: Database, rest: seq<Item>)
    requires target.codecs.Lawful() && AllValid(tables) && Restorable(tables, cells, source, target)
    requires Unfilled(tables, db)
    ensures var r := RestoreAll(DumpAll(tables, target.codecs) + rest, |tables|, db, target);
            && (r.Ok? && AllRestored(tables, cells, source, r.value.db, target) <==>
                AllCarry(tables, cells, source, target))
            && (r.Ok? ==> r.value.rest == rest && OthersKept(tables, db, r.value.db))
  {
    RestoreInserts(tables, target, db, rest);
    TablesSurviveIff(tables, cells, source, target, db);
  }

  /** What the round trip asks of its arguments, before a restore into an empty database. */
  ghost predicate Backed(tables: seq<Table>, cells: seq<seq<seq<Cell>>>, target: Target) {
    && target.codecs.Lawful() && AllValid(tables) && Restorable(tables, cells, Postgres, target)
    && Unfilled(tables, map[])
  }

  function OneCell(kind: Kind, raw: Raw): Table {
    Table(Spec("t", [Column("c", kind)]), [[raw]])
  }

  lemma OneCellHolds(kind: Kind, raw: Raw, cell: Cell, codecs: Codecs)
    requires Represents(raw, cell, kind, Postgres, codecs)
    ensures OneCell(kind, raw).Valid() && Holds(OneCell(kind, raw), [[cell]], Postgres, codecs)
  {
    var t := OneCell(kind, raw);
    forall j | 0 <= j < 1 ensures Represents(t.rows[0][j], [cell][j], t.spec.columns[j].kind, Postgres, codecs) {
      assert t.rows[0][j] == raw && [cell][j] == cell && t.spec.columns[j].kind == kind;
    }
    assert RowHolds(t.rows[0], [cell], t.spec.columns, Postgres, codecs);
  }

  lemma OneCellCarries(kind: Kind, raw: Raw, cell: Cell, target: Target)
    requires Holds(OneCell(kind, raw), [[cell]], Postgres, target.codecs)
    ensures RowsCarry(OneCell(kind, raw), 0, [[cell]], Postgres, target) ==
              Carries(raw, cell, kind, Postgres, target.engine, target.codecs)
  {
    var t := OneCell(kind, raw);
    assert t.rows[0][0] == raw && [cell][0] == cell && t.spec.columns[0].kind == kind;
    assert RowsCarry(t, 1, [[cell]], Postgres, target);
    assert RowCarries(t.rows[0], [cell], t.spec.columns, Postgres, target) ==
             Carries(t.rows[0][0], [cell][0], t.spec.columns[0].kind, Postgres, target.engine, target.codecs);
  }

  lemma OneCellBacked(kind: Kind, raw: Raw, cell: Cell, target: Target)
    requires target.codecs.Lawful() && target.known == map["t" := OneCell(kind, raw).spec]
    requires Represents(raw, cell, kind, Postgres, target.codecs)
    ensures Backed([OneCell(kind, raw)], [[[cell]]], target)
    ensures AllCarry([OneCell(kind, raw)], [[[cell]]], Postgres, target) ==
              Carries(raw, cell, kind, Postgres, target.engine, target.codecs)
  {
    OneCellHolds(kind, raw, cell, target.codecs);
    OneCellCarries(kind, raw, cell, target);
    OneTableBacked(OneCell(kind, raw), [[cell]], target);
  }

  lemma OneTableBacked(t: Table, cells: seq<seq<Cell>>, target: Target)
    requires target.codecs.Lawful() && t.Valid() && Holds(t, cells, Postgres, target.codecs)
    requires target.known == map["t" := t.spec] && t.spec.name == "t" && |t.spec.columns| == 1
    ensures Backed([t], [cells], target)
    ensures AllCarry([t], [cells], Postgres, target) == RowsCarry(t, 0, cells, Postgres, target)
  {
    assert Covers(t.spec, t.spec.columns);
    assert TableFits(t, cells, Postgres, target) && TableFits([t][0], [cells][0], Postgres, target);
    assert [t][1..] == [] && [cells][1..] == [];
    assert Restorable([t][1..], [cells][1..], Postgres, target) && AllCarry([t][1..], [cells][1..], Postgres, target);
    assert AllCarry([t], [cells], Postgres, target) == TableCarries([t][0], [cells][0], Postgres, target);
  }

  /** There are such arguments, for either engine, for which everything comes through. */
  lemma SomeTableIsCarried(engine: Engine) returns (tables: seq<Table>, cells: seq<seq<seq<Cell>>>, target: Target)
    ensures tables != [] && target.engine == engine && Backed(tables, cells, target)
    ensures AllCarry(tables, cells, Postgres, target)
  {
    LawfulCodecsExist();
    var codecs: Codecs :| codecs.Lawful();
    target := Target(engine, map["t" := OneCell(TextKind, StringValue("a")).spec], codecs);
    tables, cells := [OneCell(TextKind, StringValue("a"))], [[[Words("a")]]];
    OneCellBacked(TextKind, StringValue("a"), Words("a"), target);
  }

  /** A failing input for all codecs that obey the laws: a table of one row whose jsonb document is
      a string, read by the unwrapping driver. No engine restores it. */
  lemma UnwrappedTextIsLost(text: string, target: Target, rest: seq<Item>)
    requires target.codecs.Lawful() && target.known == map["t" := Spec("t", [Column("c", JsonKind)])]
    ensures var t, cells := OneCell(JsonKind, StringValue(text)), [[Document(JsonText(text))]];
            && Backed([t], [cells], target)
            && var r := RestoreAll(DumpAll([t], target.codecs) + rest, 1, map[], target);
               r.Err? || !AllRestored([t], [cells], Postgres, r.value.db, target)
  {
    OneCellBacked(JsonKind, StringValue(text), Document(JsonText(text)), target);
    BackupSurvivesIff(
      [OneCell(JsonKind, StringValue(text))], [[[Document(JsonText(text))]]], Postgres, target, map[], rest);
  }

  // ---------------------------------------------------------------------------
  // A cut stream
  // ---------------------------------------------------------------------------

  lemma {:induction false} CutRowsFail(t: Table, first: nat, n: nat, target: Target, db: Database)
    requires t.Valid() && first <= |t.rows| && n < |RowItems(t, first, target.codecs)|
    requires t.spec.name in target.known ==> Recognized(Names(t.spec.columns), target.known[t.spec.name])
    ensures var items := RowItems(t, first, target.codecs)[..n];
            var r := RestoreRows(items, t.spec.name, Names(t.spec.columns), db, target);
            && r.Err?
            && (r.error == Truncated ||
                (t.spec.name in target.known && Inserted(t, first, target.known[t.spec.name], target) == Err(r.error)))
    decreases n
  {
    if n > 0 {
      var items := RowItems(t, first, target.codecs)[..n];
      var name, names := t.spec.name, Names(t.spec.columns);
      var item := RowItem(t.rows[first], t.spec.columns, target.codecs);
      assert items[0] == item && items[1..] == RowItems(t, first + 1, target.codecs)[..n - 1];
      if name !in target.known {
        CutRowsFail(t, first + 1, n - 1, target, db);
      } else {
        var row := Reinserted(t.rows[first], t.spec.columns, target.known[name], target);
        if row.Ok? {
          CutRowsFail(t, first + 1, n - 1, target, db[name := RowsOf(db, name) + [row.value]]);
        }
      }
    }
  }

  lemma CutBlockFails(t: Table, n: nat, target: Target, db: Database)
    requires t.Valid() && n < |Dump(t, target.codecs)|
    ensures var r := RestoreBlock(Dump(t, target.codecs)[..n], db, target);
            r.Err? && (r.error == Truncated || InsertedTable(t, db, target) == Err(r.error))
  {
    if n > 0 {
      var items := Dump(t, target.codecs)[..n];
      assert items[0] == TableStart(t.spec.name, Names(t.spec.columns));
      assert items[1..] == RowItems(t, 0, target.codecs)[..n - 1];
      if t.spec.name !in target.known || Recognized(Names(t.spec.columns), target.known[t.spec.name]) {
        CutRowsFail(t, 0, n - 1, target, db);
      }
    }
  }

  /** A stream cut anywhere before its end is never restored, whatever it holds: it is reported
      truncated, or refused as the whole of it would be. */
  lemma {:induction false} CutBackupFails(tables: seq<Table>, n: nat, target: Target, db: Database)
    requires AllValid(tables) && n < |DumpAll(tables, target.codecs)|
    ensures var r := RestoreAll(DumpAll(tables, target.codecs)[..n], |tables|, db, target);
            r.Err? && (r.error == Truncated || InsertedTables(tables, db, target) == Err(r.error))
    decreases |tables|
  {
    var t, more := tables[0], tables[1..];
    var first, items := Dump(t, target.codecs), DumpAll(tables, target.codecs)[..n];
    if n < |first| {
      assert items == first[..n];
      CutBlockFails(t, n, target, db);
    } else {
      var rest := DumpAll(more, target.codecs)[..n - |first|];
      assert items == first + rest;
      BlockRead(t, target, db, rest);
      var next := InsertedTable(t, db, target);
      if next.Ok? {
        CutBackupFails(more, n - |first|, target, next.value);
      }
    }
  }
}
