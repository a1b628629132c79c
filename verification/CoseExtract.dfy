/** Finding the credential public key inside a WebAuthn attestation object
    (section 6.5.1 of Web Authentication Level 2), for any order of the object's keys. */
module CoseExtract {
  import opened Cbor
  import opened Prelude

  datatype Part = MapKey | MapValue

  datatype Failure =
    | Empty
    | NotAMap
    | IndefiniteMap
    | RunsOut(part: Part)
    | WrongType(part: Part)
    | Missing
    | ShortHeader
    | NoAttestedData
    | TruncatedData
    | NoKey
    | BadCbor(error: Error)

  const TEXT: Major := 3
  const BYTES: Major := 2
  const MAP: Major := 5

  /** "authData" in UTF-8, and the byte order mark a text decoder drops. */
  const NAME: seq<Byte> := [97, 117, 116, 104, 68, 97, 116, 97]
  const MARK: seq<Byte> := [0xEF, 0xBB, 0xBF]

  predicate Named(key: seq<Byte>) {
    key == NAME || key == MARK + NAME
  }

  /** What a text decoder makes of ASCII bytes; any other byte decodes to nothing in the name. */
  function Characters(key: seq<Byte>): string {
    seq(|key|, i requires 0 <= i < |key| => if key[i] < 128 then key[i] as char else '\U{FFFD}')
  }

  function WithoutMark(key: seq<Byte>): seq<Byte> {
    if MARK <= key then key[3..] else key
  }

  /** A key is called authData exactly when its text is, a leading byte order mark aside. */
  lemma NamedIff(key: seq<Byte>)
    ensures Named(key) <==> Characters(WithoutMark(key)) == "authData"
  {
    var name := WithoutMark(key);
    assert |"authData"| == |NAME| == 8;
    assert forall i :: 0 <= i < 8 ==> NAME[i] as char == "authData"[i];
    if Characters(name) == "authData" {
      forall i | 0 <= i < 8 ensures name[i] == NAME[i] {
        assert Characters(name)[i] == "authData"[i];
      }
      assert name == NAME;
      assert MARK <= key ==> key == MARK + name;
    }
    if Named(key) {
      assert (MARK + NAME)[3..] == NAME && NAME[0] != MARK[0];
      assert key == NAME ==> !(MARK <= key);
      assert name == NAME;
      assert Characters(NAME) == "authData";
    }
  }

  // ---------------------------------------------------------------------------
  // The authenticator data
  // ---------------------------------------------------------------------------

  datatype Span = Span(start: nat, end: nat)

  /** The string of the given major type at `o`: where its bytes begin and end. */
  function ReadString(buf: seq<Byte>, o: nat, major: Major, part: Part): (r: Result<Span, Failure>)
    ensures r.Ok? ==> o < r.value.start <= r.value.end <= |buf|
  {
    if o >= |buf| then Err(RunsOut(part))
    else if buf[o] / 32 != major then Err(WrongType(part))
    else
      var read := ReadUint(buf, o + 1, buf[o] % 32);
      if read.Err? then Err(BadCbor(read.error))
      else
        var start := o + 1 + read.value.size;
        if start + read.value.value > |buf| then Err(RunsOut(part)) else Ok(Span(start, start + read.value.value))
  }

  /** The source's reading of a map key, and of the authData value. */
  method ReadStringAt(buf: seq<Byte>, start: nat, major: Major, part: Part) returns (r: Result<Span, Failure>)
    ensures r == ReadString(buf, start, major, part)
  {
    var o := start;
    if o >= |buf| {
      return Err(RunsOut(part));
    }
    var initial := buf[o];
    o := o + 1;
    if initial / 32 != major {
      return Err(WrongType(part));
    }
    var length := ReadCborUint(buf, o, initial % 32);
    if length.Err? {
      return Err(BadCbor(length.error));
    }
    o := o + length.value.size;
    var end := o + length.value.value;
    if end > |buf| {
      return Err(RunsOut(part));
    }
    return Ok(Span(o, end));
  }

  datatype Step = Found(data: seq<Byte>) | Next(offset: nat)

  /** What one entry at `o` does to the walk: end it, or move it past key and value. */
  function EntryAt(buf: seq<Byte>, o: nat): Result<Step, Failure> {
    var key := ReadString(buf, o, TEXT, MapKey);
    if key.Err? then Err(key.error)
    else if Named(buf[key.value.start..key.value.end]) then
      var value := ReadString(buf, key.value.end, BYTES, MapValue);
      if value.Err? then Err(value.error) else Ok(Found(buf[value.value.start..value.value.end]))
    else
      var skip := ItemLength(buf, key.value.end);
      if skip.Err? then Err(BadCbor(skip.error)) else Ok(Next(key.value.end + skip.value))
  }

  /** What an entry would do at every offset. */
  function Steps(buf: seq<Byte>): (r: seq<Result<Step, Failure>>)
    ensures |r| == |buf| + 1 && forall o :: 0 <= o <= |buf| ==> r[o] == EntryAt(buf, o)
  {
    seq(|buf| + 1, o requires 0 <= o <= |buf| => EntryAt(buf, o))
  }

  ghost predicate StepsOf(steps: seq<Result<Step, Failure>>, buf: seq<Byte>) {
    |steps| == |buf| + 1 && forall o {:trigger EntryAt(buf, o)} :: 0 <= o <= |buf| ==> steps[o] == EntryAt(buf, o)
  }

  /** The value of the first entry called authData, among `count` entries at `o`. */
  function Walk(steps: seq<Result<Step, Failure>>, o: nat, count: nat): Result<seq<Byte>, Failure>
    decreases count
  {
    if count == 0 then Err(Missing)
    else if o >= |steps| then Err(RunsOut(MapKey))
    else if steps[o].Err? then Err(steps[o].error)
    else
      match steps[o].value
      case Found(data) => Ok(data)
      case Next(offset) => Walk(steps, offset, count - 1)
  }

  function AuthData(buf: seq<Byte>): Result<seq<Byte>, Failure> {
    if |buf| == 0 then Err(Empty)
    else if buf[0] / 32 != MAP then Err(NotAMap)
    else if buf[0] % 32 == 31 then Err(IndefiniteMap)
    else
      var entries := ReadUint(buf, 1, buf[0] % 32);
      if entries.Err? then Err(BadCbor(entries.error))
      else Walk(Steps(buf), 1 + entries.value.size, entries.value.value)
  }

  /** The source's walk: one offset moving through the map, past one key and value at a time. */
  method ExtractAuthData(buf: seq<Byte>) returns (r: Result<seq<Byte>, Failure>)
    ensures r == AuthData(buf)
  {
    var o := 0;
    if o >= |buf| {
      return Err(Empty);
    }
    var initial := buf[o];
    o := o + 1;
    if initial / 32 != MAP {
      return Err(NotAMap);
    }
    if initial % 32 == 31 {
      return Err(IndefiniteMap);
    }
    var entries := ReadCborUint(buf, o, initial % 32);
    if entries.Err? {
      return Err(BadCbor(entries.error));
    }
    o := o + entries.value.size;
    r := WalkMap(buf, o, entries.value.value);
  }

  /** One turn of the loop: the value of an entry called authData, or where the next entry begins. */
  method ReadEntry(buf: seq<Byte>, start: nat) returns (r: Result<Step, Failure>)
    requires start <= |buf|
    ensures r == EntryAt(buf, start)
    ensures r.Ok? && r.value.Next? ==> r.value.offset <= |buf|
  {
    var o := start;
    var key := ReadStringAt(buf, o, TEXT, MapKey);
    if key.Err? {
      return Err(key.error);
    }
    o := key.value.end;
    if Named(buf[key.value.start..key.value.end]) {
      var value := ReadStringAt(buf, o, BYTES, MapValue);
      if value.Err? {
        return Err(value.error);
      }
      return Ok(Found(buf[value.value.start..value.value.end]));
    }
    var skip := CborItemLength(buf, o);
    if skip.Err? {
      return Err(BadCbor(skip.error));
    }
    // An item never reaches past the buffer, so the source's own bound test never fires.
    return Ok(Next(o + skip.value));
  }

  method WalkMap(buf: seq<Byte>, start: nat, entryCount: nat) returns (r: Result<seq<Byte>, Failure>)
    requires start <= |buf|
    ensures r == Walk(Steps(buf), start, entryCount)
  {
    var o: nat := start;
    ghost var steps := Steps(buf);
    ghost var left: nat := entryCount;
    for i := 0 to entryCount
      invariant o <= |buf| && left == entryCount - i
      invariant Walk(steps, start, entryCount) == Walk(steps, o, left)
    {
      var step := ReadEntry(buf, o);
      assert steps[o] == step;
      left := left - 1;
      if step.Err? {
        return Err(step.error);
      }
      if step.value.Found? {
        return Ok(step.value.data);
      }
      o := step.value.offset;
    }
    return Err(Missing);
  }

  // ---------------------------------------------------------------------------
  // The key inside the authenticator data
  // ---------------------------------------------------------------------------

  const HEADER := 37
  const AAGUID := 16

  /** The offset of the public key: behind header, aaguid, two-byte length and credential id. */
  function KeyOffset(data: seq<Byte>): Result<nat, Failure> {
    if |data| < HEADER then Err(ShortHeader)
    else if data[32] / 64 % 2 == 0 then Err(NoAttestedData)
    else if |data| < HEADER + AAGUID + 2 then Err(TruncatedData)
    else
      var offset := HEADER + AAGUID + 2 + Two(data[HEADER + AAGUID], data[HEADER + AAGUID + 1]);
      if |data| <= offset then Err(NoKey) else Ok(offset)
  }

  /** Which fault of the authenticator data is reported. */
  lemma KeyFaults(data: seq<Byte>)
    ensures KeyOffset(data) == Err(ShortHeader) <==> |data| < 37
    ensures KeyOffset(data) == Err(NoAttestedData) <==> |data| >= 37 && data[32] % 128 < 64
    ensures KeyOffset(data) == Err(TruncatedData) <==> 37 <= |data| < 55 && data[32] % 128 >= 64
    ensures KeyOffset(data) == Err(NoKey) <==>
              |data| >= 55 && data[32] % 128 >= 64 && |data| <= 55 + (data[53] as nat) * 256 + (data[54] as nat)
    ensures KeyOffset(data).Ok? ==> KeyOffset(data).value == 55 + (data[53] as nat) * 256 + (data[54] as nat)
  {
  }

  /** Which fault of the attestation object's own head is reported. */
  lemma MapFaults(buf: seq<Byte>)
    ensures AuthData(buf) == Err(Empty) <==> |buf| == 0
    ensures |buf| > 0 && buf[0] / 32 != 5 ==> AuthData(buf) == Err(NotAMap)
    ensures |buf| > 0 && buf[0] == 0xbf ==> AuthData(buf) == Err(IndefiniteMap)
    ensures |buf| > 0 && 0xbc <= buf[0] <= 0xbe ==> AuthData(buf) == Err(BadCbor(BadInfo))
  {
    if |buf| > 0 && buf[0] / 32 == 5 && buf[0] % 32 < 28 && ReadUint(buf, 1, buf[0] % 32).Ok? {
      var count := ReadUint(buf, 1, buf[0] % 32).value;
      WalkNeverEmpty(Steps(buf), 1 + count.size, count.value);
    }
  }

  lemma {:induction false} WalkNeverEmpty(steps: seq<Result<Step, Failure>>, o: nat, count: nat)
    requires forall i :: 0 <= i < |steps| ==> steps[i] != Err(Empty)
    ensures Walk(steps, o, count) != Err(Empty)
    decreases count
  {
    if count > 0 && o < |steps| && steps[o].Ok? && steps[o].value.Next? {
      WalkNeverEmpty(steps, steps[o].value.offset, count - 1);
    }
  }

  /** The one item standing at that offset. */
  function KeyBytes(data: seq<Byte>): Result<seq<Byte>, Failure> {
    var offset := KeyOffset(data);
    if offset.Err? then Err(offset.error)
    else
      var length := ItemLength(data, offset.value);
      if length.Err? then Err(BadCbor(length.error)) else Ok(data[offset.value..offset.value + length.value])
  }

  function Extract(buf: seq<Byte>): Result<seq<Byte>, Failure> {
    var data := AuthData(buf);
    if data.Err? then data else KeyBytes(data.value)
  }

  method ExtractCredentialPublicKeyCose(buf: seq<Byte>) returns (r: Result<seq<Byte>, Failure>)
    ensures r == Extract(buf)
  {
    var data := ExtractAuthData(buf);
    if data.Err? {
      return data;
    }
    var offset := KeyOffset(data.value);
    if offset.Err? {
      return Err(offset.error);
    }
    r := ReadKey(data.value, offset.value);
  }

  /** The key item itself. */
  method ReadKey(data: seq<Byte>, offset: nat) returns (r: Result<seq<Byte>, Failure>)
    requires KeyOffset(data) == Ok(offset)
    ensures r == KeyBytes(data)
  {
    var length := CborItemLength(data, offset);
    if length.Err? {
      return Err(BadCbor(length.error));
    }
    return Ok(data[offset..offset + length.value]);
  }

  // ---------------------------------------------------------------------------
  // What an attestation object is
  // ---------------------------------------------------------------------------

  /** One map entry: a text key in any argument width, and any well-formed value. */
  datatype Entry = Entry(key: seq<Byte>, width: Width, value: Item) {
    predicate Valid() {
      Fits(|key|, width) && WellFormed(value)
    }

    function Bytes(): seq<Byte>
      requires Valid()
    {
      EncodeHead(TEXT, |key|, width) + key + Encode(value)
    }
  }

  predicate AllValid(entries: seq<Entry>) {
    entries != [] ==> entries[0].Valid() && AllValid(entries[1..])
  }

  function EntryBytes(entries: seq<Entry>): seq<Byte>
    requires AllValid(entries)
  {
    if entries == [] then [] else entries[0].Bytes() + EntryBytes(entries[1..])
  }

  /** Entries up to the first one called authData, which holds a byte string. */
  predicate Leads(entries: seq<Entry>) {
    && entries != []
    && entries[0].Valid()
    && if Named(entries[0].key) then |entries| == 1 && entries[0].value.major == BYTES else Leads(entries[1..])
  }

  function Payload(entries: seq<Entry>): seq<Byte>
    requires entries != []
  {
    entries[|entries| - 1].value.payload
  }

  // ---------------------------------------------------------------------------
  // Exactness
  // ---------------------------------------------------------------------------

  lemma AtIsSlice(buf: seq<Byte>, o: nat, bytes: seq<Byte>)
    requires At(buf, o, bytes)
    ensures buf[o..o + |bytes|] == bytes
  {
  }

  lemma SliceIsAt(buf: seq<Byte>, o: nat, end: nat)
    requires o <= end <= |buf|
    ensures At(buf, o, buf[o..end])
  {
  }

  /** A string is read exactly where it is encoded. */
  lemma StringReads(buf: seq<Byte>, o: nat, major: Major, part: Part, bytes: seq<Byte>, w: Width)
    requires Fits(|bytes|, w) && At(buf, o, EncodeHead(major, |bytes|, w) + bytes)
    ensures ReadString(buf, o, major, part) == Ok(Span(o + 1 + Size(w), o + 1 + Size(w) + |bytes|))
    ensures buf[o + 1 + Size(w)..o + 1 + Size(w) + |bytes|] == bytes
  {
    AtSplit(buf, o, EncodeHead(major, |bytes|, w), bytes);
    HeadReads(buf, o, major, |bytes|, w);
    AtIsSlice(buf, o + 1 + Size(w), bytes);
  }

  lemma ReadStringIsEncoded(buf: seq<Byte>, o: nat, major: Major, part: Part) returns (bytes: seq<Byte>, w: Width)
    requires ReadString(buf, o, major, part).Ok?
    ensures var s := ReadString(buf, o, major, part).value;
            && bytes == buf[s.start..s.end]
            && s == Span(o + 1 + Size(w), o + 1 + Size(w) + |bytes|)
            && Fits(|bytes|, w)
            && At(buf, o, EncodeHead(major, |bytes|, w) + bytes)
  {
    var s := ReadString(buf, o, major, part).value;
    bytes, w := buf[s.start..s.end], WidthOf(buf[o] % 32);
    BigEndianOfValue(buf, o + 1, Size(w));
    Powers();
    HeadReads(buf, o, major, |bytes|, w);
    SliceIsAt(buf, s.start, s.end);
    AtSplit(buf, o, EncodeHead(major, |bytes|, w), bytes);
  }

  /** One entry: its key reads back, and its value begins where the key ends. */
  lemma EntryReads(buf: seq<Byte>, o: nat, e: Entry)
    requires e.Valid() && At(buf, o, e.Bytes())
    ensures var end := o + 1 + Size(e.width) + |e.key|;
            && ReadString(buf, o, TEXT, MapKey) == Ok(Span(end - |e.key|, end))
            && buf[end - |e.key|..end] == e.key
            && At(buf, end, Encode(e.value))
            && ItemLength(buf, end) == Ok(Length(e.value))
  {
    AtSplit(buf, o, EncodeHead(TEXT, |e.key|, e.width) + e.key, Encode(e.value));
    StringReads(buf, o, TEXT, MapKey, e.key, e.width);
    ItemReads(buf, o + 1 + Size(e.width) + |e.key|, e.value);
  }

  /** A byte string item reads back as its payload. */
  lemma BytesRead(buf: seq<Byte>, o: nat, item: Item)
    requires WellFormed(item) && item.major == BYTES && At(buf, o, Encode(item))
    ensures var s := ReadString(buf, o, BYTES, MapValue);
            s.Ok? && buf[s.value.start..s.value.end] == item.payload
  {
    assert item.children.Nil?;
    AtSplit(buf, o, EncodeHead(BYTES, item.arg, item.width) + item.payload, []);
    StringReads(buf, o, BYTES, MapValue, item.payload, item.width);
  }

  /** A standing entry is one step of the walk. */
  lemma EntryIsOneStep(buf: seq<Byte>, steps: seq<Result<Step, Failure>>, o: nat, e: Entry)
    requires StepsOf(steps, buf) && e.Valid() && At(buf, o, e.Bytes())
    requires Named(e.key) ==> e.value.major == BYTES
    ensures steps[o] == Ok(if Named(e.key) then Found(e.value.payload) else Next(o + |e.Bytes()|))
  {
    if Named(e.key) {
      NamedEntry(buf, o, e);
    } else {
      OtherEntry(buf, o, e);
    }
  }

  lemma NamedEntry(buf: seq<Byte>, o: nat, e: Entry)
    requires e.Valid() && At(buf, o, e.Bytes()) && Named(e.key) && e.value.major == BYTES
    ensures EntryAt(buf, o) == Ok(Found(e.value.payload))
  {
    EntryReads(buf, o, e);
    BytesRead(buf, o + 1 + Size(e.width) + |e.key|, e.value);
  }

  lemma OtherEntry(buf: seq<Byte>, o: nat, e: Entry)
    requires e.Valid() && At(buf, o, e.Bytes()) && !Named(e.key)
    ensures EntryAt(buf, o) == Ok(Next(o + |e.Bytes()|))
  {
    EntryReads(buf, o, e);
  }

  /** The walk skips the entries before the first one called authData and returns its payload. */
  lemma {:induction false} WalkFinds(
      buf: seq<Byte>, steps: seq<Result<Step, Failure>>, o: nat, count: nat, entries: seq<Entry>)
    requires StepsOf(steps, buf) && |entries| <= count && Leads(entries) && AllValid(entries)
    requires At(buf, o, EntryBytes(entries))
    ensures Walk(steps, o, count) == Ok(Payload(entries))
    decreases |entries|
  {
    var e := entries[0];
    FirstEntry(buf, o, entries);
    EntryIsOneStep(buf, steps, o, e);
    if !Named(e.key) {
      WalkFinds(buf, steps, o + |e.Bytes()|, count - 1, entries[1..]);
    }
  }

  lemma FirstEntry(buf: seq<Byte>, o: nat, entries: seq<Entry>)
    requires entries != [] && AllValid(entries) && At(buf, o, EntryBytes(entries))
    ensures At(buf, o, entries[0].Bytes()) && o + |entries[0].Bytes()| <= |buf|
    ensures At(buf, o + |entries[0].Bytes()|, EntryBytes(entries[1..]))
  {
    AtSplit(buf, o, entries[0].Bytes(), EntryBytes(entries[1..]));
  }

  /** Whatever the walk returns is such a payload. */
  lemma {:induction false} WalkFound(buf: seq<Byte>, steps: seq<Result<Step, Failure>>, o: nat, count: nat)
    returns (entries: seq<Entry>)
    requires StepsOf(steps, buf) && Walk(steps, o, count).Ok?
    ensures |entries| <= count && Leads(entries) && AllValid(entries) && At(buf, o, EntryBytes(entries))
    ensures Payload(entries) == Walk(steps, o, count).value
    decreases count
  {
    var e := StepIsOneEntry(buf, steps, o);
    var rest := [];
    if !Named(e.key) {
      rest := WalkFound(buf, steps, o + |e.Bytes()|, count - 1);
    }
    entries := [e] + rest;
    OneEntryEarlier(buf, o, e, rest);
  }

  lemma OneEntryEarlier(buf: seq<Byte>, o: nat, e: Entry, rest: seq<Entry>)
    requires e.Valid() && AllValid(rest) && At(buf, o, e.Bytes()) && At(buf, o + |e.Bytes()|, EntryBytes(rest))
    ensures ([e] + rest)[1..] == rest
    ensures AllValid([e] + rest) && At(buf, o, EntryBytes([e] + rest))
  {
    assert ([e] + rest)[1..] == rest;
    AtSplit(buf, o, e.Bytes(), EntryBytes(rest));
  }

  /** A step of the walk is one standing entry. */
  lemma StepIsOneEntry(buf: seq<Byte>, steps: seq<Result<Step, Failure>>, o: nat) returns (e: Entry)
    requires StepsOf(steps, buf) && o <= |buf| && steps[o].Ok?
    ensures e.Valid() && At(buf, o, e.Bytes())
    ensures Named(e.key) ==> e.value.major == BYTES
    ensures steps[o] == Ok(if Named(e.key) then Found(e.value.payload) else Next(o + |e.Bytes()|))
  {
    assert steps[o] == EntryAt(buf, o);
    var s := ReadString(buf, o, TEXT, MapKey).value;
    var key, w := ReadStringIsEncoded(buf, o, TEXT, MapKey);
    var value := ValueAt(buf, s.end, Named(key));
    e := Entry(key, w, value);
    AtSplit(buf, o, EncodeHead(TEXT, |key|, w) + key, Encode(value));
  }

  /** The value the walk accepted at `o`: the byte string it returns, or the item it skips. */
  lemma ValueAt(buf: seq<Byte>, o: nat, named: bool) returns (item: Item)
    requires if named then ReadString(buf, o, BYTES, MapValue).Ok? else ItemLength(buf, o).Ok?
    ensures WellFormed(item) && At(buf, o, Encode(item))
    ensures !named ==> ItemLength(buf, o) == Ok(Length(item))
    ensures named ==> var s := ReadString(buf, o, BYTES, MapValue).value;
                      item.major == BYTES && item.payload == buf[s.start..s.end]
  {
    if named {
      var bytes, w := ReadStringIsEncoded(buf, o, BYTES, MapValue);
      item := Item(BYTES, |bytes|, w, bytes, Nil);
      assert Encode(item) == EncodeHead(BYTES, |bytes|, w) + bytes;
    } else {
      var n := ItemLength(buf, o).value;
      ItemLengthIsExact(buf, o, n);
      item :| WellFormed(item) && |Encode(item)| == n && At(buf, o, Encode(item));
    }
  }

  /** An attestation object as far as its authenticator data: a map of `count` entries, in any
      order, of which `entries` come up to the first one called authData. */
  datatype Attestation = Attestation(count: nat, width: Width, entries: seq<Entry>)

  ghost predicate StandsIn(buf: seq<Byte>, a: Attestation) {
    && Fits(a.count, a.width)
    && At(buf, 0, EncodeHead(MAP, a.count, a.width))
    && |a.entries| <= a.count
    && Leads(a.entries)
    && AllValid(a.entries)
    && At(buf, 1 + Size(a.width), EntryBytes(a.entries))
  }

  function Offset(data: seq<Byte>): nat
    requires |data| >= HEADER + AAGUID + 2
  {
    HEADER + AAGUID + 2 + Two(data[HEADER + AAGUID], data[HEADER + AAGUID + 1])
  }

  /** The authenticator data holds attested credential data with this public key. */
  ghost predicate Attests(data: seq<Byte>, key: Item) {
    && |data| >= HEADER + AAGUID + 2
    && data[32] / 64 % 2 == 1
    && WellFormed(key)
    && At(data, Offset(data), Encode(key))
  }

  lemma AuthDataFinds(buf: seq<Byte>, a: Attestation)
    requires StandsIn(buf, a)
    ensures AuthData(buf) == Ok(Payload(a.entries))
  {
    HeadReads(buf, 0, MAP, a.count, a.width);
    WalkFinds(buf, Steps(buf), 1 + Size(a.width), a.count, a.entries);
  }

  lemma AuthDataFound(buf: seq<Byte>) returns (a: Attestation)
    requires AuthData(buf).Ok?
    ensures StandsIn(buf, a) && AuthData(buf) == Ok(Payload(a.entries))
  {
    var count := ReadUint(buf, 1, buf[0] % 32).value;
    var w := WidthOf(buf[0] % 32);
    BigEndianOfValue(buf, 1, Size(w));
    Powers();
    HeadReads(buf, 0, MAP, count.value, w);
    var entries := WalkFound(buf, Steps(buf), 1 + count.size, count.value);
    a := Attestation(count.value, w, entries);
  }

  /** The authenticator data found is the byte string of the first authData entry, whatever
      comes before it and whatever follows it. */
  lemma AuthDataIsExact(buf: seq<Byte>, data: seq<Byte>)
    ensures AuthData(buf) == Ok(data) <==> exists a :: StandsIn(buf, a) && Payload(a.entries) == data
  {
    if AuthData(buf) == Ok(data) {
      var a := AuthDataFound(buf);
    }
    forall a | StandsIn(buf, a) && Payload(a.entries) == data
      ensures AuthData(buf) == Ok(data)
    {
      AuthDataFinds(buf, a);
    }
  }

  /** The bytes returned are exactly the encoding of the public key, whatever extensions follow. */
  lemma KeyBytesIsExact(data: seq<Byte>, bytes: seq<Byte>)
    ensures KeyBytes(data) == Ok(bytes) <==> exists key :: Attests(data, key) && bytes == Encode(key)
  {
    if KeyBytes(data) == Ok(bytes) {
      var offset := KeyOffset(data).value;
      ItemLengthIsExact(data, offset, |bytes|);
      var key :| WellFormed(key) && |Encode(key)| == |bytes| && At(data, offset, Encode(key));
      AtIsSlice(data, offset, Encode(key));
      assert Attests(data, key);
    }
    forall key | Attests(data, key) && bytes == Encode(key)
      ensures KeyBytes(data) == Ok(bytes)
    {
      ItemReads(data, Offset(data), key);
      AtIsSlice(data, Offset(data), bytes);
    }
  }

  /** The extractor returns `bytes` exactly when the buffer is an attestation object whose first
      authData entry attests a key encoded by those bytes. */
  lemma ExtractIsExact(buf: seq<Byte>, bytes: seq<Byte>)
    ensures Extract(buf) == Ok(bytes) <==>
              exists a, key :: StandsIn(buf, a) && Attests(Payload(a.entries), key) && bytes == Encode(key)
  {
    if Extract(buf) == Ok(bytes) {
      var data := AuthData(buf).value;
      AuthDataIsExact(buf, data);
      KeyBytesIsExact(data, bytes);
    }
    forall a, key | StandsIn(buf, a) && Attests(Payload(a.entries), key) && bytes == Encode(key)
      ensures Extract(buf) == Ok(bytes)
    {
      AuthDataIsExact(buf, Payload(a.entries));
      KeyBytesIsExact(Payload(a.entries), bytes);
    }
  }
}
