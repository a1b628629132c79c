/** What a column holds, what a driver hands out for it, what a backup stores of it, and what an
    insert makes of that again. */
module Cells {
  import opened Prelude
  import Codes
  import Text

  // ---------------------------------------------------------------------------
  // Values
  // ---------------------------------------------------------------------------

  datatype Engine = Sqlite | Postgres

  datatype Kind = TextKind | BoolKind | UuidKind | JsonKind

  type Uuid = nat

  /** mantissa * 10^exponent. */
  datatype Numeral = Numeral(mantissa: int, exponent: int)

  /** Finite decimals, each written in one way. */
  type Num = n: Numeral | n.mantissa % 10 != 0 || n == Numeral(0, 0) witness Numeral(0, 0)

  function Scaled(mantissa: int, exponent: int): Num
    decreases if mantissa < 0 then -mantissa else mantissa
  {
    if mantissa == 0 then Numeral(0, 0)
    else if mantissa % 10 != 0 then Numeral(mantissa, exponent)
    else Scaled(mantissa / 10, exponent + 1)
  }

  datatype Json =
    | JsonNull
    | JsonFlag(flag: bool)
    | JsonNumber(number: Num)
    | JsonText(text: string)
    | JsonArray(items: seq<Json>)
    | JsonObject(fields: map<string, Json>)

  /** What a database driver hands out for one column. */
  datatype Raw =
    | NilValue
    | BoolValue(flag: bool)
    | Int64(int64: int)
    | Int32(int32: int)
    | Int16(int16: int)
    | Float32(float32: Num)
    | Float64(float64: Num)
    | StringValue(text: string)
    | BytesValue(bytes: string)
    | UuidBytes(uuid: Uuid)
    | JsonTree(json: Json)

  /** What a backup stores, and what an insert is given. */
  datatype Portable = Null | Bool(flag: bool) | Int(number: int) | Float(float: Num) | Str(text: string)

  /** What a column holds, whatever the engine; Empty is SQL's NULL. */
  datatype Cell =
    | Empty
    | Flag(flag: bool)
    | Number(number: int)
    | Decimal(decimal: Num)
    | Words(text: string)
    | Id(uuid: Uuid)
    | Document(json: Json)

  /** Printing, parsing and rounding, left to libraries. `round` is the double nearest to a decimal,
      as the shortest decimal that denotes it; `realText` is what SQLite writes for a double. */
  datatype Codecs = Codecs(
    printUuid: Uuid -> string,
    parseUuid: string -> Option<Uuid>,
    printJson: Json -> string,
    parseJson: string -> Option<Json>,
    round: Num -> Num,
    realText: Num -> string)
  {
    /** Parsing undoes printing, a JSON string is written longer than it is, and the digits 0 and 1
        are numbers. */
    ghost predicate Lawful() {
      UuidsComeBack() && DocumentsComeBack() && TextIsQuoted() && DigitsAreNumbers()
    }

    ghost predicate UuidsComeBack() {
      forall u: Uuid :: parseUuid(printUuid(u)) == Some(u)
    }

    ghost predicate DocumentsComeBack() {
      forall j: Json :: parseJson(printJson(j)) == Some(j)
    }

    ghost predicate TextIsQuoted() {
      forall s: string, t: string :: parseJson(s) == Some(JsonText(t)) ==> |t| < |s|
    }

    ghost predicate DigitsAreNumbers() {
      forall b: bool :: parseJson(Digit(b)).Some? && parseJson(Digit(b)).value.JsonNumber?
    }
  }

  function Digit(b: bool): string {
    if b then "1" else "0"
  }

  // ---------------------------------------------------------------------------
  // Reading, storing and inserting
  // ---------------------------------------------------------------------------

  /** The portable value of what a driver handed out. */
  function Normalize(v: Raw, kind: Kind, codecs: Codecs): Portable {
    match v
    case NilValue => Null
    case BoolValue(b) => Bool(b)
    case Int64(i) => if kind == BoolKind then Bool(i != 0) else Int(i)
    case Int32(i) => if kind == BoolKind then Bool(i != 0) else Int(i)
    case Int16(i) => Int(i)
    case Float32(x) => Float(x)
    case Float64(x) => Float(x)
    case StringValue(s) => Str(s)
    case BytesValue(s) => Str(s)
    case UuidBytes(u) => Str(codecs.printUuid(u))
    case JsonTree(j) => Str(codecs.printJson(j))
  }

  /** The argument an insert into this engine gets for a portable value. */
  function Coerce(v: Portable, kind: Kind, engine: Engine): Portable {
    if v.Null? then Null
    else
      match engine
      case Sqlite => if kind == BoolKind && v.Bool? then Int(if v.flag then 1 else 0) else v
      case Postgres => if kind == BoolKind && v.Int? then Bool(v.number != 0) else v
  }

  /** What a text means in a column of SQLite, where identifiers and documents are kept as text. */
  function Meaning(s: string, kind: Kind, codecs: Codecs): Cell {
    match kind
    case UuidKind => (match codecs.parseUuid(s) case Some(u) => Id(u) case None => Words(s))
    case JsonKind => (match codecs.parseJson(s) case Some(j) => Document(j) case None => Words(s))
    case _ => Words(s)
  }

  /** What the column holds once the argument is inserted; none when the engine refuses it. The
      casts are those of the insert statement, SQLite's text columns turn numbers into text. */
  function Insert(arg: Portable, kind: Kind, engine: Engine, codecs: Codecs): Option<Cell> {
    match engine
    case Sqlite => Some(InsertSqlite(arg, kind, codecs))
    case Postgres => InsertPostgres(arg, kind, codecs)
  }

  function InsertSqlite(arg: Portable, kind: Kind, codecs: Codecs): Cell {
    var written := kind == UuidKind || kind == JsonKind;
    match arg
    case Null => Empty
    case Bool(b) =>
      if written then Meaning(Digit(b), kind, codecs) else SqliteNumber(if b then 1 else 0, kind)
    case Int(i) =>
      if written then Meaning(Text.FormatInt(i), kind, codecs) else SqliteNumber(i, kind)
    case Float(x) => if written then Meaning(codecs.realText(x), kind, codecs) else Decimal(x)
    case Str(s) => Meaning(s, kind, codecs)
  }

  /** SQLite keeps flags as the integers 0 and 1. */
  function SqliteNumber(i: int, kind: Kind): Cell {
    if kind == BoolKind && i == 0 then Flag(false)
    else if kind == BoolKind && i == 1 then Flag(true)
    else Number(i)
  }

  function InsertPostgres(arg: Portable, kind: Kind, codecs: Codecs): Option<Cell> {
    match arg
    case Null => Some(Empty)
    case Bool(b) =>
      if kind == BoolKind then Some(Flag(b)) else if kind == JsonKind then Some(Document(JsonFlag(b))) else None
    case Int(i) =>
      if kind == TextKind then Some(Number(i))
      else if kind == JsonKind then Some(Document(JsonNumber(Scaled(i, 0)))) else None
    case Float(x) =>
      if kind == TextKind then Some(Decimal(x))
      else if kind == JsonKind then Some(Document(JsonNumber(x))) else None
    case Str(s) =>
      match kind
      case TextKind => Some(Words(s))
      case BoolKind => None
      case UuidKind => (match codecs.parseUuid(s) case Some(u) => Some(Id(u)) case None => None)
      case JsonKind => (match codecs.parseJson(s) case Some(j) => Some(Document(j)) case None => None)
  }

  /** A document whose numbers went through a double. */
  function Rounded(j: Json, codecs: Codecs): Json {
    match j
    case JsonNumber(x) => JsonNumber(codecs.round(x))
    case JsonArray(items) => JsonArray(seq(|items|, i requires 0 <= i < |items| => Rounded(items[i], codecs)))
    case JsonObject(fields) => JsonObject(map name | name in fields :: Rounded(fields[name], codecs))
    case _ => j
  }

  /** What the pgx driver hands out for a jsonb value. */
  function Unwrapped(j: Json): Raw {
    match j
    case JsonNull => NilValue
    case JsonFlag(b) => BoolValue(b)
    case JsonNumber(x) => Float64(x)
    case JsonText(s) => StringValue(s)
    case JsonArray(_) => JsonTree(j)
    case JsonObject(_) => JsonTree(j)
  }

  function TextOf(raw: Raw): Option<string> {
    match raw
    case StringValue(s) => Some(s)
    case BytesValue(s) => Some(s)
    case _ => None
  }

  /** A driver of this engine may hand out the raw value for a column that holds the cell. SQLite's
      columns of identifiers and documents may hold any text. */
  predicate Represents(raw: Raw, cell: Cell, kind: Kind, engine: Engine, codecs: Codecs) {
    match cell
    case Empty => raw == NilValue
    case Flag(b) =>
      && kind == BoolKind
      && (|| raw == BoolValue(b)
          || (engine == Sqlite && raw.Int64? && b == (raw.int64 != 0))
          || (engine == Sqlite && raw.Int32? && b == (raw.int32 != 0)))
    case Number(i) => kind == TextKind && (raw == Int64(i) || raw == Int32(i) || raw == Int16(i))
    case Decimal(x) => kind == TextKind && (raw == Float64(x) || raw == Float32(x))
    case Words(s) =>
      && (kind == TextKind || (engine == Sqlite && kind != BoolKind && Meaning(s, kind, codecs) == Words(s)))
      && TextOf(raw) == Some(s)
    case Id(u) =>
      && kind == UuidKind
      && if engine == Postgres then raw == UuidBytes(u)
         else TextOf(raw).Some? && codecs.parseUuid(TextOf(raw).value) == Some(u)
    case Document(j) =>
      && kind == JsonKind
      && if engine == Postgres then
           raw == Unwrapped(Rounded(j, codecs)) || (raw.BytesValue? && codecs.parseJson(raw.bytes) == Some(j))
         else TextOf(raw).Some? && codecs.parseJson(TextOf(raw).value) == Some(j)
  }

  // ---------------------------------------------------------------------------
  // What survives a backup and a restore
  // ---------------------------------------------------------------------------

  /** What the backup writes for the raw value and the restore makes of it. */
  function Carried(raw: Raw, kind: Kind, target: Engine, codecs: Codecs): Option<Cell> {
    Insert(Coerce(Normalize(raw, kind, codecs), kind, target), kind, target, codecs)
  }

  /** The cells that come through. Text that is no identifier or document cannot enter Postgres; a
      document the driver decoded has lost digits that no double holds, and of the documents that are
      scalars a string and a null are never written as JSON, a flag and a number only by Postgres,
      unless SQLite's text of the number happens to denote it. */
  predicate Carries(raw: Raw, cell: Cell, kind: Kind, source: Engine, target: Engine, codecs: Codecs) {
    match cell
    case Words(_) => kind == TextKind || target == Sqlite
    case Document(j) => source == Sqlite || raw.BytesValue? || Decodes(j, target, codecs)
    case _ => true
  }

  predicate Decodes(j: Json, target: Engine, codecs: Codecs) {
    match j
    case JsonNull => false
    case JsonText(_) => false
    case JsonFlag(_) => target == Postgres
    case JsonNumber(x) =>
      if target == Postgres then codecs.round(x) == x
      else codecs.parseJson(codecs.realText(codecs.round(x))) == Some(JsonNumber(x))
    case JsonArray(_) => Rounded(j, codecs) == j
    case JsonObject(_) => Rounded(j, codecs) == j
  }

  /** Across any pair of engines, a value backed up and restored is the same cell exactly when it is
      one of those that come through. */
  lemma CellSurvivesIff(raw: Raw, cell: Cell, kind: Kind, source: Engine, target: Engine, codecs: Codecs)
    requires codecs.Lawful() && Represents(raw, cell, kind, source, codecs)
    ensures Carried(raw, kind, target, codecs) == Some(cell) <==> Carries(raw, cell, kind, source, target, codecs)
  {
    match cell
    case Id(u) => assert codecs.parseUuid(codecs.printUuid(u)) == Some(u);
    case Document(j) =>
      if source == Postgres && !raw.BytesValue? {
        DecodedSurvivesIff(j, target, codecs);
      } else {
        var s := TextOf(raw).value;
        assert Carried(raw, kind, target, codecs) == Insert(Str(s), JsonKind, target, codecs) == Some(Document(j));
      }
    case Words(s) =>
      assert Carried(raw, kind, target, codecs) == Insert(Str(s), kind, target, codecs);
    case _ => ScalarSurvives(raw, cell, kind, source, target, codecs);
  }

  lemma ScalarSurvives(raw: Raw, cell: Cell, kind: Kind, source: Engine, target: Engine, codecs: Codecs)
    requires Represents(raw, cell, kind, source, codecs)
    requires cell.Empty? || cell.Flag? || cell.Number? || cell.Decimal?
    ensures Carried(raw, kind, target, codecs) == Some(cell)
  {
  }

  lemma DecodedSurvivesIff(j: Json, target: Engine, codecs: Codecs)
    requires codecs.Lawful()
    ensures (Carried(Unwrapped(Rounded(j, codecs)), JsonKind, target, codecs) == Some(Document(j)))
         == Decodes(j, target, codecs)
  {
    var decoded := Rounded(j, codecs);
    match j
    case JsonFlag(b) => assert codecs.parseJson(Digit(b)).value.JsonNumber?;
    case JsonArray(_) => assert codecs.parseJson(codecs.printJson(decoded)) == Some(decoded);
    case JsonObject(_) => assert codecs.parseJson(codecs.printJson(decoded)) == Some(decoded);
    case _ =>
  }

  /** What a backup stores for a cell, whichever engine it was read from. */
  function Neutral(cell: Cell, codecs: Codecs): Portable
    requires !cell.Id? && !cell.Document?
  {
    match cell
    case Empty => Null
    case Flag(b) => Bool(b)
    case Number(i) => Int(i)
    case Decimal(x) => Float(x)
    case Words(s) => Str(s)
  }

  /** Of a cell that is neither an identifier nor a document the backup stores one value, the same
      for every engine and every type the driver may use; of those two it stores a text for them. */
  lemma BackupIsNeutral(raw: Raw, cell: Cell, kind: Kind, engine: Engine, codecs: Codecs)
    requires codecs.Lawful() && Represents(raw, cell, kind, engine, codecs)
    ensures !cell.Id? && !cell.Document? ==> Normalize(raw, kind, codecs) == Neutral(cell, codecs)
    ensures cell.Id? ==>
              Normalize(raw, kind, codecs).Str? &&
              codecs.parseUuid(Normalize(raw, kind, codecs).text) == Some(cell.uuid)
    ensures cell.Document? && (engine == Sqlite || raw.BytesValue?) ==>
              Normalize(raw, kind, codecs).Str? &&
              codecs.parseJson(Normalize(raw, kind, codecs).text) == Some(cell.json)
  {
    if cell.Id? {
      assert codecs.parseUuid(codecs.printUuid(cell.uuid)) == Some(cell.uuid);
    }
  }

  /** An engine is handed a flag in its own type, and anything else as it is. */
  lemma FlagsAreCoerced(v: Portable, kind: Kind, engine: Engine, codecs: Codecs)
    ensures kind == BoolKind && engine == Sqlite ==> !Coerce(v, kind, engine).Bool?
    ensures kind == BoolKind && engine == Postgres ==> !Coerce(v, kind, engine).Int?
    ensures kind == BoolKind && v.Bool? ==> Insert(Coerce(v, kind, engine), kind, engine, codecs) == Some(Flag(v.flag))
    ensures kind == BoolKind && engine == Postgres && v.Int? ==>
              Insert(Coerce(v, kind, engine), kind, engine, codecs) == Some(Flag(v.number != 0))
    ensures kind != BoolKind || !(v.Bool? || v.Int?) ==> Coerce(v, kind, engine) == v
  {
  }

  /** A value of another type than its column's, or text that does not parse as its column's. */
  predicate Mistyped(arg: Portable, kind: Kind, codecs: Codecs) {
    match arg
    case Null => false
    case Bool(_) => kind == TextKind || kind == UuidKind
    case Int(_) => kind == BoolKind || kind == UuidKind
    case Float(_) => kind == BoolKind || kind == UuidKind
    case Str(s) =>
      || kind == BoolKind
      || (kind == UuidKind && codecs.parseUuid(s).None?)
      || (kind == JsonKind && codecs.parseJson(s).None?)
  }

  /** SQLite has integers for flags: 0 and 1 in a flag column are flags, any other integer, or any in a
      column of numbers, stays a number. */
  lemma SqliteFlagsAreIntegers(b: bool, i: int, kind: Kind, codecs: Codecs)
    ensures Insert(Bool(b), kind, Sqlite, codecs) == Insert(Int(if b then 1 else 0), kind, Sqlite, codecs)
    ensures kind == TextKind || (kind == BoolKind && i != 0 && i != 1) ==>
              Insert(Int(i), kind, Sqlite, codecs) == Some(Number(i))
    ensures kind == BoolKind && (i == 0 || i == 1) ==> Insert(Int(i), kind, Sqlite, codecs) == Some(Flag(i == 1))
  {
    assert Text.FormatInt(0) == "0" && Text.FormatInt(1) == "1";
  }

  /** Postgres refuses exactly the mistyped values, and SQLite nothing. */
  lemma RefusedIff(arg: Portable, kind: Kind, engine: Engine, codecs: Codecs)
    ensures Insert(arg, kind, engine, codecs).None? <==> engine == Postgres && Mistyped(arg, kind, codecs)
  {
  }

  function Power(base: int, n: nat): int {
    if n == 0 then 1 else base * Power(base, n - 1)
  }

  /** The normal form of a decimal denotes the same number. */
  lemma {:induction false} ScaledDenotesIt(mantissa: int, exponent: int) returns (n: nat)
    ensures mantissa == Scaled(mantissa, exponent).mantissa * Power(10, n)
    ensures mantissa == 0 ==> Scaled(mantissa, exponent) == Numeral(0, 0)
    ensures mantissa != 0 ==> Scaled(mantissa, exponent).exponent == exponent + n
    decreases if mantissa < 0 then -mantissa else mantissa
  {
    if mantissa == 0 || mantissa % 10 != 0 {
      n := 0;
    } else {
      var k := ScaledDenotesIt(mantissa / 10, exponent + 1);
      n := k + 1;
      var m := Scaled(mantissa / 10, exponent + 1).mantissa;
      assert mantissa == 10 * (mantissa / 10) == 10 * (m * Power(10, k));
      assert m * Power(10, n) == m * (10 * Power(10, k)) == 10 * (m * Power(10, k));
    }
  }

  /** What becomes of a scalar document on its way through the unwrapping driver: its text, its digit
      or its number, for the target to read as it can. */
  function Fallen(j: Json, target: Engine, codecs: Codecs): Option<Cell>
    requires !j.JsonArray? && !j.JsonObject?
  {
    match j
    case JsonNull => Some(Empty)
    case JsonFlag(b) =>
      Some(if target == Postgres then Document(j) else Meaning(if b then "1" else "0", JsonKind, codecs))
    case JsonNumber(x) =>
      Some(if target == Postgres then Document(JsonNumber(codecs.round(x)))
           else Meaning(codecs.realText(codecs.round(x)), JsonKind, codecs))
    case JsonText(s) =>
      if target == Postgres && codecs.parseJson(s).None? then None else Some(Meaning(s, JsonKind, codecs))
  }

  lemma ScalarDocumentsBecome(j: Json, target: Engine, codecs: Codecs)
    requires !j.JsonArray? && !j.JsonObject?
    ensures Carried(Unwrapped(Rounded(j, codecs)), JsonKind, target, codecs) == Fallen(j, target, codecs)
  {
  }

  /** An integer becomes that number in a jsonb column, and its digits in a text column of SQLite. */
  lemma IntegersBecome(i: int, codecs: Codecs) returns (n: nat)
    ensures var number := Insert(Int(i), JsonKind, Postgres, codecs);
            && number.Some? && number.value.Document? && number.value.json.JsonNumber?
            && number.value.json.number.mantissa * Power(10, n) == i
            && (i != 0 ==> number.value.json.number.exponent == n)
    ensures forall kind :: kind == UuidKind || kind == JsonKind ==>
              Insert(Int(i), kind, Sqlite, codecs) == Some(Meaning(Text.FormatInt(i), kind, codecs))
  {
    n := ScaledDenotesIt(i, 0);
  }

  // ---------------------------------------------------------------------------
  // The laws can be met
  // ---------------------------------------------------------------------------

  ghost function OneOf(names: set<string>): (name: string)
    requires names != {}
    ensures name in names
  {
    var name :| name in names;
    name
  }

  /** A prefix-free code of documents. */
  ghost function Bits(j: Json): (r: seq<bool>)
    ensures r == Codes.Unary(Tag(j)) + Payload(j)
    decreases j, 2
  {
    Codes.Unary(Tag(j)) + Payload(j)
  }

  function Tag(j: Json): nat {
    match j
    case JsonNull => 0
    case JsonFlag(b) => if b then 1 else 2
    case JsonNumber(_) => 3
    case JsonText(_) => 4
    case JsonArray(_) => 5
    case JsonObject(_) => 6
  }

  ghost function Payload(j: Json): seq<bool>
    decreases j, 1
  {
    match j
    case JsonNull => []
    case JsonFlag(_) => []
    case JsonNumber(x) => Codes.Integer(x.mantissa) + Codes.Integer(x.exponent)
    case JsonText(s) => Codes.Word(s)
    case JsonArray(items) => ItemBits(j, 0)
    case JsonObject(fields) => FieldBits(j, fields.Keys)
  }

  ghost function ItemBits(j: Json, first: nat): seq<bool>
    requires j.JsonArray? && first <= |j.items|
    decreases j, 0, |j.items| - first
  {
    if first == |j.items| then [false] else [true] + (Bits(j.items[first]) + ItemBits(j, first + 1))
  }

  ghost function FieldBits(j: Json, names: set<string>): seq<bool>
    requires j.JsonObject? && names <= j.fields.Keys
    decreases j, 0, |names|
  {
    if names == {} then [false]
    else
      var name := OneOf(names);
      [true] + (Codes.Word(name) + (Bits(j.fields[name]) + FieldBits(j, names - {name})))
  }

  lemma {:induction false} BitsArePrefixFree(a: Json, b: Json, x: seq<bool>, y: seq<bool>)
    requires Bits(a) + x == Bits(b) + y
    ensures a == b && x == y
    decreases a, 1, 0
  {
    Regroup(Codes.Unary(Tag(a)), Payload(a), x);
    Regroup(Codes.Unary(Tag(b)), Payload(b), y);
    Codes.UnaryIsPrefixFree(Tag(a), Tag(b), Payload(a) + x, Payload(b) + y);
    match a
    case JsonNull => assert Payload(a) + x == x && Payload(b) + y == y;
    case JsonFlag(_) => assert Payload(a) + x == x && Payload(b) + y == y;
    case JsonNumber(n) => NumbersArePrefixFree(n, b.number, x, y);
    case JsonText(s) => Codes.WordIsPrefixFree(s, b.text, x, y);
    case JsonArray(items) =>
      ItemsArePrefixFree(a, b, 0, x, y);
      assert a.items[0..] == a.items && b.items[0..] == b.items;
    case JsonObject(fields) => FieldsArePrefixFree(a, b, fields.Keys, b.fields.Keys, x, y);
  }

  lemma NumbersArePrefixFree(m: Num, n: Num, x: seq<bool>, y: seq<bool>)
    requires Codes.Integer(m.mantissa) + Codes.Integer(m.exponent) + x
               == Codes.Integer(n.mantissa) + Codes.Integer(n.exponent) + y
    ensures m == n && x == y
  {
    Regroup(Codes.Integer(m.mantissa), Codes.Integer(m.exponent), x);
    Regroup(Codes.Integer(n.mantissa), Codes.Integer(n.exponent), y);
    Codes.IntegerIsPrefixFree(m.mantissa, n.mantissa,
      Codes.Integer(m.exponent) + x, Codes.Integer(n.exponent) + y);
    Codes.IntegerIsPrefixFree(m.exponent, n.exponent, x, y);
  }

  /** What follows the mark of a list. */
  ghost function ItemTail(j: Json, i: nat): seq<bool>
    requires j.JsonArray? && i <= |j.items|
  {
    if i == |j.items| then [] else Bits(j.items[i]) + ItemBits(j, i + 1)
  }

  lemma {:induction false} ItemsArePrefixFree(a: Json, b: Json, i: nat, x: seq<bool>, y: seq<bool>)
    requires a.JsonArray? && b.JsonArray? && i <= |a.items| && i <= |b.items|
    requires ItemBits(a, i) + x == ItemBits(b, i) + y
    ensures a.items[i..] == b.items[i..] && x == y
    decreases a, 0, |a.items| - i
  {
    Regroup([i < |a.items|], ItemTail(a, i), x);
    Regroup([i < |b.items|], ItemTail(b, i), y);
    assert ItemBits(a, i) == [i < |a.items|] + ItemTail(a, i) && ItemBits(b, i) == [i < |b.items|] + ItemTail(b, i);
    Codes.Unpair(i < |a.items|, i < |b.items|, ItemTail(a, i) + x, ItemTail(b, i) + y);
    if i < |a.items| {
      Regroup(Bits(a.items[i]), ItemBits(a, i + 1), x);
      Regroup(Bits(b.items[i]), ItemBits(b, i + 1), y);
      BitsArePrefixFree(a.items[i], b.items[i], ItemBits(a, i + 1) + x, ItemBits(b, i + 1) + y);
      ItemsArePrefixFree(a, b, i + 1, x, y);
      assert a.items[i..] == [a.items[i]] + a.items[i + 1..] && b.items[i..] == [b.items[i]] + b.items[i + 1..];
    } else {
      assert ItemTail(a, i) + x == x && ItemTail(b, i) + y == y;
    }
  }

  /** What follows the mark of a set of fields, and what follows the name of the first. */
  ghost function FieldTail(j: Json, names: set<string>): seq<bool>
    requires j.JsonObject? && names <= j.fields.Keys
  {
    if names == {} then [] else Codes.Word(OneOf(names)) + FieldRest(j, names)
  }

  ghost function FieldRest(j: Json, names: set<string>): seq<bool>
    requires j.JsonObject? && names <= j.fields.Keys && names != {}
  {
    Bits(j.fields[OneOf(names)]) + FieldBits(j, names - {OneOf(names)})
  }

  lemma {:induction false} FieldsArePrefixFree(
      a: Json, b: Json, m: set<string>, n: set<string>, x: seq<bool>, y: seq<bool>)
    requires a.JsonObject? && b.JsonObject? && m <= a.fields.Keys && n <= b.fields.Keys
    requires FieldBits(a, m) + x == FieldBits(b, n) + y
    ensures m == n && x == y && forall name :: name in m ==> a.fields[name] == b.fields[name]
    decreases a, 0, |m|
  {
    Regroup([m != {}], FieldTail(a, m), x);
    Regroup([n != {}], FieldTail(b, n), y);
    assert FieldBits(a, m) == [m != {}] + FieldTail(a, m) && FieldBits(b, n) == [n != {}] + FieldTail(b, n);
    Codes.Unpair(m != {}, n != {}, FieldTail(a, m) + x, FieldTail(b, n) + y);
    if m != {} {
      var k, l := OneOf(m), OneOf(n);
      Regroup(Codes.Word(k), FieldRest(a, m), x);
      Regroup(Codes.Word(l), FieldRest(b, n), y);
      Codes.WordIsPrefixFree(k, l, FieldRest(a, m) + x, FieldRest(b, n) + y);
      Regroup(Bits(a.fields[k]), FieldBits(a, m - {k}), x);
      Regroup(Bits(b.fields[k]), FieldBits(b, n - {k}), y);
      BitsArePrefixFree(a.fields[k], b.fields[k], FieldBits(a, m - {k}) + x, FieldBits(b, n - {k}) + y);
      FieldsArePrefixFree(a, b, m - {k}, n - {k}, x, y);
      assert m == (m - {k}) + {k} && n == (n - {k}) + {k};
    } else {
      assert FieldTail(a, m) + x == x && FieldTail(b, n) + y == y;
    }
  }

  ghost function Printed(j: Json): string {
    Codes.AsText(Bits(j))
  }

  ghost predicate Prints(j: Json, s: string) {
    Printed(j) == s
  }

  lemma PrintedIsInjective(a: Json, b: Json)
    requires Printed(a) == Printed(b)
    ensures a == b
  {
    Codes.TextIsInjective(Bits(a), Bits(b));
    BitsArePrefixFree(a, b, [], []);
  }

  ghost function ParsedJson(s: string): Option<Json> {
    if s == "0" || s == "1" then Some(JsonNumber(Numeral(0, 0)))
    else if exists j :: Prints(j, s) then (var j :| Prints(j, s); Some(j))
    else None
  }

  ghost function ParsedUuid(s: string): Option<Uuid> {
    if s != "" && Codes.AsText(Codes.Unary(|s| - 1)) == s then Some(|s| - 1) else None
  }

  ghost function Example(): Codecs {
    Codecs((u: Uuid) => Codes.AsText(Codes.Unary(u)), s => ParsedUuid(s), j => Printed(j), s => ParsedJson(s),
      (x: Num) => x, (x: Num) => "")
  }

  /** There are codecs that obey the laws, so what is proved under them is about something. */
  lemma LawfulCodecsExist()
    ensures exists codecs: Codecs :: codecs.Lawful()
  {
    var codecs := Example();
    assert codecs.UuidsComeBack() by {
      forall u: Uuid ensures codecs.parseUuid(codecs.printUuid(u)) == Some(u) {
        Codes.UnaryLength(u);
      }
    }
    assert codecs.DocumentsComeBack() by {
      forall j: Json ensures codecs.parseJson(codecs.printJson(j)) == Some(j) {
        ParsedIsPrinted(j);
      }
    }
    assert codecs.TextIsQuoted() by {
      forall s: string, t: string | codecs.parseJson(s) == Some(JsonText(t)) ensures |t| < |s| {
        ParsedIsShorter(s, t);
      }
    }
    assert codecs.DigitsAreNumbers();
    assert codecs.Lawful();
  }

  lemma ParsedIsShorter(s: string, t: string)
    requires ParsedJson(s) == Some(JsonText(t))
    ensures |t| < |s|
  {
    assert Prints(JsonText(t), s);
    assert Payload(JsonText(t)) == Codes.Word(t);
  }

  lemma ParsedIsPrinted(j: Json)
    ensures ParsedJson(Printed(j)) == Some(j)
  {
    var s := Printed(j);
    assert |Bits(j)| > 0;
    assert s[0] == 't' || s[0] == 'f';
    assert Prints(j, s);
    var k := ParsedJson(s).value;
    assert Prints(k, s);
    PrintedIsInjective(j, k);
  }
}
