/** The definite-length CBOR reader (section 3 of RFC 8949) behind the COSE key extractor.

    `Encode` is the reference: what the bytes of a well-formed item are, with any argument
    width the encoder may have picked. `ItemLength` is what the reader computes, and the two
    agree in both directions. */
module Cbor {
  import opened Prelude

  datatype Error = Truncated | TooLarge | BadInfo | PastEnd | Indefinite | StringPastEnd

  // ---------------------------------------------------------------------------
  // Reading an argument
  // ---------------------------------------------------------------------------

  /** The width of an argument, as the low five bits of an initial byte announce it. */
  datatype Width = Inline | One | TwoBytes | FourBytes | EightBytes

  function Size(w: Width): nat {
    match w
    case Inline => 0
    case One => 1
    case TwoBytes => 2
    case FourBytes => 4
    case EightBytes => 8
  }

  function WidthOf(info: nat): Width
    requires info < 28
  {
    if info < 24 then Inline
    else if info == 24 then One
    else if info == 25 then TwoBytes
    else if info == 26 then FourBytes
    else EightBytes
  }

  /** The unsigned big-endian value of the `n` bytes at `o`. */
  function Value(buf: seq<Byte>, o: nat, n: nat): nat
    requires o + n <= |buf|
  {
    if n == 0 then 0 else Value(buf, o, n - 1) * 256 + buf[o + n - 1]
  }

  const MAX_SAFE := 0x1fffffffffffff

  datatype Arg = Arg(value: nat, size: nat)

  /** The argument after an initial byte: the value of its bytes, at most 2^53 - 1. */
  function ReadUint(buf: seq<Byte>, o: nat, info: nat): (r: Result<Arg, Error>)
    ensures r.Ok? && o <= |buf| ==> o + r.value.size <= |buf|
  {
    if info < 24 then Ok(Arg(info, 0))
    else if info >= 28 then Err(BadInfo)
    else
      var n := Size(WidthOf(info));
      if o + n > |buf| then Err(Truncated)
      else if Value(buf, o, n) > MAX_SAFE then Err(TooLarge)
      else Ok(Arg(Value(buf, o, n), n))
  }

  /** Two and four bytes combined as the source combines them. */
  function Two(a: Byte, b: Byte): nat {
    a * 0x100 + b
  }

  function Four(a: Byte, b: Byte, c: Byte, d: Byte): nat {
    a * 0x1000000 + (b * 0x10000 + c * 0x100 + d)
  }

  lemma ValueOfTwo(buf: seq<Byte>, o: nat)
    requires o + 2 <= |buf|
    ensures Value(buf, o, 1) == buf[o] && Value(buf, o, 2) == Two(buf[o], buf[o + 1])
  {
    assert Value(buf, o, 1) == Value(buf, o, 0) * 256 + buf[o];
  }

  lemma ValueOfFour(buf: seq<Byte>, o: nat)
    requires o + 4 <= |buf|
    ensures Value(buf, o, 4) == Four(buf[o], buf[o + 1], buf[o + 2], buf[o + 3])
  {
    ValueOfTwo(buf, o);
    assert Value(buf, o, 3) == Value(buf, o, 2) * 256 + buf[o + 2];
  }

  function Power256(n: nat): nat {
    if n == 0 then 1 else 256 * Power256(n - 1)
  }

  lemma {:induction false} ValueAppends(buf: seq<Byte>, o: nat, m: nat, n: nat)
    requires o + m + n <= |buf|
    ensures Value(buf, o, m + n) == Value(buf, o, m) * Power256(n) + Value(buf, o + m, n)
  {
    if n > 0 {
      ValueAppends(buf, o, m, n - 1);
      Shift(Value(buf, o, m), Power256(n - 1), Value(buf, o + m, n - 1));
    }
  }

  lemma Shift(v: nat, p: nat, w: nat)
    ensures (v * p + w) * 256 == v * (256 * p) + w * 256
  {
  }

  lemma Powers()
    ensures Power256(1) == 0x100 && Power256(2) == 0x10000 && Power256(4) == 0x100000000
    ensures Power256(8) == 0x100000000 * 0x100000000
  {
    assert Power256(3) == 0x1000000;
    assert Power256(5) == 0x10000000000;
    assert Power256(6) == 0x1000000000000;
    assert Power256(7) == 0x100000000000000;
  }

  lemma ValueOfEight(buf: seq<Byte>, o: nat)
    requires o + 8 <= |buf|
    ensures Value(buf, o, 8) == Value(buf, o, 4) * 0x100000000 + Value(buf, o + 4, 4)
  {
    ValueAppends(buf, o, 4, 4);
    Powers();
  }

  /** The reader's own arithmetic, byte by byte, computes that value; the test on the high
      word alone rejects exactly the values above the safe limit. */
  method ReadCborUint(buf: seq<Byte>, o: nat, info: nat) returns (r: Result<Arg, Error>)
    ensures r == ReadUint(buf, o, info)
  {
    if info < 24 {
      return Ok(Arg(info, 0));
    }
    if info == 24 {
      if o + 1 > |buf| {
        return Err(Truncated);
      }
      assert Value(buf, o, 1) == Value(buf, o, 0) * 256 + buf[o];
      return Ok(Arg(buf[o], 1));
    }
    if info == 25 {
      if o + 2 > |buf| {
        return Err(Truncated);
      }
      ValueOfTwo(buf, o);
      return Ok(Arg(Two(buf[o], buf[o + 1]), 2));
    }
    if info == 26 {
      if o + 4 > |buf| {
        return Err(Truncated);
      }
      ValueOfFour(buf, o);
      return Ok(Arg(Four(buf[o], buf[o + 1], buf[o + 2], buf[o + 3]), 4));
    }
    if info == 27 {
      if o + 8 > |buf| {
        return Err(Truncated);
      }
      ValueOfFour(buf, o);
      ValueOfFour(buf, o + 4);
      ValueOfEight(buf, o);
      var high := Four(buf[o], buf[o + 1], buf[o + 2], buf[o + 3]);
      var low := Four(buf[o + 4], buf[o + 5], buf[o + 6], buf[o + 7]);
      if high > 0x1fffff {
        return Err(TooLarge);
      }
      return Ok(Arg(high * 0x100000000 + low, 8));
    }
    return Err(BadInfo);
  }

  type Major = n: nat | n < 8

  datatype Head = Head(major: Major, arg: nat, width: Width) {
    /** How many payload bytes follow the head. */
    function Payload(): nat {
      if major == 2 || major == 3 then arg else 0
    }

    /** How many items an item of this head contains. */
    function Children(): nat {
      if major == 4 then arg
      else if major == 5 then 2 * arg
      else if major == 6 then 1
      else 0
    }

    /** Where the payload, and then the children, of an item at `o` begin. */
    function After(o: nat): nat {
      o + 1 + Size(width)
    }

    function Body(o: nat): nat {
      After(o) + Payload()
    }
  }

  function ReadHead(buf: seq<Byte>, o: nat): (r: Result<Head, Error>)
    ensures r.Ok? ==> r.value.After(o) <= |buf|
  {
    if o >= |buf| then Err(PastEnd)
    else
      var info := buf[o] % 32;
      if info == 31 then Err(Indefinite)
      else
        var read := ReadUint(buf, o + 1, info);
        if read.Err? then Err(read.error)
        else Ok(Head(buf[o] / 32, read.value.value, WidthOf(info)))
  }

  /** Which fault of a head is reported. */
  lemma HeadFaults(buf: seq<Byte>, o: nat)
    ensures ReadHead(buf, o) == Err(PastEnd) <==> o >= |buf|
    ensures ReadHead(buf, o) == Err(Indefinite) <==> o < |buf| && buf[o] % 32 == 31
    ensures ReadHead(buf, o) == Err(BadInfo) <==> o < |buf| && 28 <= buf[o] % 32 <= 30
    ensures ReadHead(buf, o) == Err(Truncated) ==> o < |buf| && 24 <= buf[o] % 32 <= 27 && o + 9 > |buf|
    ensures ReadHead(buf, o) == Err(TooLarge) ==>
              && o + 9 <= |buf| && buf[o] % 32 == 27
              && Value(buf, o + 1, 8) > 9007199254740991
  {
    if o < |buf| && 24 <= buf[o] % 32 <= 26 {
      var n := Size(WidthOf(buf[o] % 32));
      if o + 1 + n <= |buf| {
        SmallValue(buf, o + 1, n);
      }
    }
  }

  lemma {:induction false} SmallValue(buf: seq<Byte>, o: nat, n: nat)
    requires o + n <= |buf| && n <= 4
    ensures Value(buf, o, n) < Power256(n) <= 0x100000000
  {
    if n > 0 {
      SmallValue(buf, o, n - 1);
      assert Power256(n) == 256 * Power256(n - 1);
      assert n == 1 ==> Power256(0) == 1;
      assert n == 2 ==> Power256(1) == 256;
      assert n == 3 ==> Power256(2) == 0x10000;
      assert n == 4 ==> Power256(3) == 0x1000000;
    }
  }

  // ---------------------------------------------------------------------------
  // The length of an item
  // ---------------------------------------------------------------------------

  /** What reading a head gives at every offset of the buffer. */
  function Heads(buf: seq<Byte>): (r: seq<Result<Head, Error>>)
    ensures |r| == |buf| && forall i :: 0 <= i < |buf| ==> r[i] == ReadHead(buf, i)
  {
    seq(|buf|, i requires 0 <= i < |buf| => ReadHead(buf, i))
  }

  /** Where `pending` consecutive items end, read flat: each head adds its children to the
      items still pending. */
  function Skip(heads: seq<Result<Head, Error>>, o: nat, pending: nat): (r: Result<nat, Error>)
    ensures r.Ok? && o <= |heads| ==> o <= r.value <= |heads| && (pending > 0 ==> o < r.value)
    decreases |heads| - o
  {
    if pending == 0 then Ok(o)
    else if o >= |heads| then Err(PastEnd)
    else if heads[o].Err? then Err(heads[o].error)
    else
      var next := heads[o].value.Body(o);
      if next > |heads| then Err(StringPastEnd)
      else Skip(heads, next, pending - 1 + heads[o].value.Children())
  }

  /** The length of the one item at `o`. */
  function ItemLength(buf: seq<Byte>, o: nat): (r: Result<nat, Error>)
    ensures r.Ok? ==> 1 <= r.value && o + r.value <= |buf|
  {
    Since(Skip(Heads(buf), o, 1), o)
  }

  function Since(end: Result<nat, Error>, start: nat): Result<nat, Error> {
    match end
    case Ok(e) => if start <= e then Ok(e - start) else Err(PastEnd)
    case Err(e) => Err(e)
  }

  /** Reading `a + b` items is reading `a` of them and then `b`. */
  lemma {:induction false} SkipSplits(heads: seq<Result<Head, Error>>, o: nat, a: nat, b: nat)
    ensures Skip(heads, o, a + b) ==
              if Skip(heads, o, a).Err? then Skip(heads, o, a) else Skip(heads, Skip(heads, o, a).value, b)
    decreases |heads| - o
  {
    if a > 0 && o < |heads| && heads[o].Ok? {
      var h := heads[o].value;
      if h.Body(o) <= |heads| {
        SkipSplits(heads, h.Body(o), a - 1 + h.Children(), b);
        assert a - 1 + h.Children() + b == a + b - 1 + h.Children();
      }
    }
  }

  /** The reader itself: a switch on the major type, with nested recursion and loops that
      advance an offset. Each element consumes at least one byte, so a huge declared count
      runs out of buffer instead of out of time. */
  method CborItemLength(buf: seq<Byte>, start: nat) returns (r: Result<nat, Error>)
    ensures r == ItemLength(buf, start)
    decreases |buf| - start, 0
  {
    if start >= |buf| {
      return Err(PastEnd);
    }
    var o := start;
    var initial := buf[o];
    o := o + 1;
    var major, info := initial / 32, initial % 32;
    if info == 31 {
      return Err(Indefinite);
    }
    var read := ReadCborUint(buf, o, info);
    if read.Err? {
      return Err(read.error);
    }
    var arg := read.value.value;
    o := o + read.value.size;
    assert Heads(buf)[start] == Ok(Head(major, arg, WidthOf(info)));
    if major == 2 || major == 3 {
      if o + arg > |buf| {
        return Err(StringPastEnd);
      }
      assert Skip(Heads(buf), o + arg, 0) == Ok(o + arg);
      return Ok(o - start + arg);
    } else if major == 4 {
      var end := ArrayItems(buf, o, arg);
      return Since(end, start);
    } else if major == 5 {
      var end := MapEntries(buf, o, arg);
      return Since(end, start);
    } else if major == 6 {
      var inner := CborItemLength(buf, o);
      return if inner.Ok? then Ok(o - start + inner.value) else inner;
    }
    assert Skip(Heads(buf), o, 0) == Ok(o);
    return Ok(o - start);
  }

  /** One more item: where it ends, or the error of the whole run. */
  lemma OneMore(buf: seq<Byte>, o: nat, done: nat, end: nat, count: nat)
    requires done < count && Skip(Heads(buf), o, done) == Ok(end)
    ensures ItemLength(buf, end).Ok? ==> Skip(Heads(buf), o, done + 1) == Ok(end + ItemLength(buf, end).value)
    ensures ItemLength(buf, end).Err? && end <= |buf| ==> Skip(Heads(buf), o, count) == Err(ItemLength(buf, end).error)
  {
    SkipSplits(Heads(buf), o, done, 1);
    SkipSplits(Heads(buf), o, done + 1, count - done - 1);
  }

  /** The loop of an array: `end` moves past one element at a time. */
  method ArrayItems(buf: seq<Byte>, o: nat, count: nat) returns (r: Result<nat, Error>)
    requires o <= |buf|
    ensures r == Skip(Heads(buf), o, count)
    decreases |buf| - o, 1
  {
    var end := o;
    for i := 0 to count
      invariant o <= end <= |buf|
      invariant Skip(Heads(buf), o, i) == Ok(end)
    {
      OneMore(buf, o, i, end, count);
      var item := CborItemLength(buf, end);
      if item.Err? {
        return Err(item.error);
      }
      end := end + item.value;
    }
    return Ok(end);
  }

  /** The loop of a map: two items an entry. */
  method MapEntries(buf: seq<Byte>, o: nat, count: nat) returns (r: Result<nat, Error>)
    requires o <= |buf|
    ensures r == Skip(Heads(buf), o, 2 * count)
    decreases |buf| - o, 1
  {
    var end := o;
    for i := 0 to count
      invariant o <= end <= |buf|
      invariant Skip(Heads(buf), o, 2 * i) == Ok(end)
    {
      OneMore(buf, o, 2 * i, end, 2 * count);
      var key := CborItemLength(buf, end);
      if key.Err? {
        return Err(key.error);
      }
      end := end + key.value;
      OneMore(buf, o, 2 * i + 1, end, 2 * count);
      var value := CborItemLength(buf, end);
      if value.Err? {
        return Err(value.error);
      }
      end := end + value.value;
    }
    return Ok(end);
  }

  // ---------------------------------------------------------------------------
  // The encoding
  // ---------------------------------------------------------------------------

  predicate Fits(v: nat, w: Width) {
    match w
    case Inline => v < 24
    case One => v < 0x100
    case TwoBytes => v < 0x10000
    case FourBytes => v < 0x100000000
    case EightBytes => v <= MAX_SAFE
  }

  function Info(v: nat, w: Width): nat
    requires Fits(v, w)
  {
    match w
    case Inline => v
    case One => 24
    case TwoBytes => 25
    case FourBytes => 26
    case EightBytes => 27
  }

  /** The last `n` base-256 digits of `v`, most significant first. */
  function BigEndian(v: nat, n: nat): (r: seq<Byte>)
    ensures |r| == n
  {
    if n == 0 then [] else BigEndian(v / 256, n - 1) + [v % 256]
  }

  function EncodeHead(major: Major, v: nat, w: Width): (r: seq<Byte>)
    requires Fits(v, w)
    ensures |r| == 1 + Size(w)
  {
    [major * 32 + Info(v, w)] + BigEndian(v, Size(w))
  }

  lemma HeadSizes(major: Major, v: nat, w: Width)
    requires Fits(v, w)
    ensures w == Inline ==> v < 24 && |EncodeHead(major, v, w)| == 1
    ensures w == One ==> v < 0x100 && |EncodeHead(major, v, w)| == 2
    ensures w == TwoBytes ==> v < 0x10000 && |EncodeHead(major, v, w)| == 3
    ensures w == FourBytes ==> v < 0x100000000 && |EncodeHead(major, v, w)| == 5
    ensures w == EightBytes ==> v < 0x20000000000000 && |EncodeHead(major, v, w)| == 9
  {
  }

  /** Heads from the examples in appendix A of RFC 8949. */
  lemma KnownHeads()
    ensures EncodeHead(0, 23, Inline) == [0x17]
    ensures EncodeHead(0, 100, One) == [0x18, 0x64]
    ensures EncodeHead(0, 1000, TwoBytes) == [0x19, 0x03, 0xe8]
    ensures EncodeHead(0, 1_000_000, FourBytes) == [0x1a, 0x00, 0x0f, 0x42, 0x40]
    ensures EncodeHead(0, 1_000_000_000_000, EightBytes) == [0x1b, 0x00, 0x00, 0x00, 0xe8, 0xd4, 0xa5, 0x10, 0x00]
    ensures EncodeHead(1, 99, One) == [0x38, 0x63]
    ensures EncodeHead(2, 4, Inline) == [0x44] && EncodeHead(3, 4, Inline) == [0x64]
    ensures EncodeHead(4, 25, One) == [0x98, 0x19] && EncodeHead(5, 2, Inline) == [0xa2]
    ensures EncodeHead(6, 1, Inline) == [0xc1]
  {
    assert BigEndian(100, 1) == BigEndian(0, 0) + [0x64];
    assert BigEndian(99, 1) == BigEndian(0, 0) + [0x63];
    assert BigEndian(25, 1) == BigEndian(0, 0) + [0x19];
    assert BigEndian(3, 1) == BigEndian(0, 0) + [3];
    assert BigEndian(1000, 2) == [3] + [0xe8];
    assert BigEndian(0xf, 2) == BigEndian(0, 1) + [0xf] && BigEndian(0, 1) == BigEndian(0, 0) + [0];
    assert BigEndian(0xf42, 3) == BigEndian(0xf, 2) + [0x42];
    assert BigEndian(1_000_000, 4) == BigEndian(0xf42, 3) + [0x40];
    assert BigEndian(0, 3) == BigEndian(0, 2) + [0] && BigEndian(0, 2) == BigEndian(0, 1) + [0];
    assert BigEndian(0xe8, 4) == BigEndian(0, 3) + [0xe8];
    assert BigEndian(0xe8d4, 5) == BigEndian(0xe8, 4) + [0xd4];
    assert BigEndian(0xe8d4a5, 6) == BigEndian(0xe8d4, 5) + [0xa5];
    assert BigEndian(0xe8d4a510, 7) == BigEndian(0xe8d4a5, 6) + [0x10];
    assert BigEndian(1_000_000_000_000, 8) == BigEndian(0xe8d4a510, 7) + [0];
  }

  /** An item of any major type: its head, the bytes of a string, the items of an array, map or
      tag. A map of `n` entries holds `2 n` items. */
  datatype Item = Item(major: Major, arg: nat, width: Width, payload: seq<Byte>, children: Items) {
    function Start(): Head {
      Head(major, arg, width)
    }
  }

  datatype Items = Nil | Cons(head: Item, tail: Items)

  function Count(items: Items): nat {
    if items.Nil? then 0 else 1 + Count(items.tail)
  }

  predicate WellFormed(item: Item) {
    && Fits(item.arg, item.width)
    && |item.payload| == item.Start().Payload()
    && Count(item.children) == item.Start().Children()
    && AllWellFormed(item.children)
  }

  /** What follows the head of each major type (section 3.1 of RFC 8949): that many bytes of a string,
      that many elements of an array, that many pairs of a map, the one item of a tag, or nothing. */
  predicate HasShape(item: Item) {
    match item.major
    case 0 => item.payload == [] && item.children.Nil?
    case 1 => item.payload == [] && item.children.Nil?
    case 2 => |item.payload| == item.arg && item.children.Nil?
    case 3 => |item.payload| == item.arg && item.children.Nil?
    case 4 => item.payload == [] && Count(item.children) == item.arg
    case 5 => item.payload == [] && Count(item.children) == item.arg + item.arg
    case 6 => item.payload == [] && Count(item.children) == 1
    case _ => item.payload == [] && item.children.Nil?
  }

  /** That is what well-formed means, and so what the reader expects. */
  lemma WellFormedIff(item: Item)
    ensures WellFormed(item) <==> Fits(item.arg, item.width) && HasShape(item) && AllWellFormed(item.children)
  {
  }

  predicate AllWellFormed(items: Items) {
    items.Cons? ==> WellFormed(items.head) && AllWellFormed(items.tail)
  }

  function Length(item: Item): nat {
    1 + Size(item.width) + |item.payload| + LengthAll(item.children)
  }

  function LengthAll(items: Items): nat {
    if items.Nil? then 0 else Length(items.head) + LengthAll(items.tail)
  }

  function Encode(item: Item): (r: seq<Byte>)
    requires WellFormed(item)
    ensures |r| == Length(item)
  {
    EncodeHead(item.major, item.arg, item.width) + item.payload + EncodeAll(item.children)
  }

  function EncodeAll(items: Items): (r: seq<Byte>)
    requires AllWellFormed(items)
    ensures |r| == LengthAll(items)
  {
    if items.Nil? then [] else Encode(items.head) + EncodeAll(items.tail)
  }

  // ---------------------------------------------------------------------------
  // The reader and the encoding agree
  // ---------------------------------------------------------------------------

  /** `bytes` stand in `buf` at offset `o`. */
  ghost predicate At(buf: seq<Byte>, o: nat, bytes: seq<Byte>) {
    o + |bytes| <= |buf| && forall i :: 0 <= i < |bytes| ==> buf[o + i] == bytes[i]
  }

  lemma AtSplit(buf: seq<Byte>, o: nat, a: seq<Byte>, b: seq<Byte>)
    ensures At(buf, o, a + b) <==> At(buf, o, a) && At(buf, o + |a|, b)
  {
    if At(buf, o, a + b) {
      forall i | 0 <= i < |a| ensures buf[o + i] == a[i] {
        assert (a + b)[i] == a[i];
      }
      forall i | 0 <= i < |b| ensures buf[o + |a| + i] == b[i] {
        assert (a + b)[|a| + i] == b[i];
      }
    }
    if At(buf, o, a) && At(buf, o + |a|, b) {
      forall i | |a| <= i < |a| + |b| ensures buf[o + i] == (a + b)[i] {
        assert (a + b)[i] == b[i - |a|];
      }
    }
  }

  lemma {:induction false} ValueOfBigEndian(buf: seq<Byte>, o: nat, v: nat, n: nat)
    requires v < Power256(n) && At(buf, o, BigEndian(v, n))
    ensures Value(buf, o, n) == v
  {
    if n > 0 {
      AtSplit(buf, o, BigEndian(v / 256, n - 1), [v % 256]);
      ValueOfBigEndian(buf, o, v / 256, n - 1);
      assert [v % 256][0] == buf[o + n - 1];
    }
  }

  lemma {:induction false} BigEndianOfValue(buf: seq<Byte>, o: nat, n: nat)
    requires o + n <= |buf|
    ensures Value(buf, o, n) < Power256(n) && At(buf, o, BigEndian(Value(buf, o, n), n))
  {
    if n > 0 {
      BigEndianOfValue(buf, o, n - 1);
      var v := Value(buf, o, n);
      assert v / 256 == Value(buf, o, n - 1) && v % 256 == buf[o + n - 1];
      AtSplit(buf, o, BigEndian(v / 256, n - 1), [v % 256]);
    }
  }

  /** An encoded argument reads back. */
  lemma UintReads(buf: seq<Byte>, o: nat, v: nat, w: Width)
    requires Fits(v, w) && At(buf, o, BigEndian(v, Size(w)))
    ensures ReadUint(buf, o, Info(v, w)) == Ok(Arg(v, Size(w)))
  {
    if w != Inline {
      Powers();
      ValueOfBigEndian(buf, o, v, Size(w));
    }
  }

  lemma InitialByte(major: Major, info: nat)
    requires info < 32
    ensures (major * 32 + info) / 32 == major && (major * 32 + info) % 32 == info
  {
  }

  /** A head reads as `(major, v)` with an argument of width `w` exactly where it is encoded so. */
  lemma HeadReads(buf: seq<Byte>, o: nat, major: Major, v: nat, w: Width)
    requires Fits(v, w)
    ensures At(buf, o, EncodeHead(major, v, w)) <==> ReadHead(buf, o) == Ok(Head(major, v, w))
  {
    AtSplit(buf, o, [major * 32 + Info(v, w)], BigEndian(v, Size(w)));
    InitialByte(major, Info(v, w));
    if At(buf, o, EncodeHead(major, v, w)) {
      assert buf[o] == EncodeHead(major, v, w)[0];
      UintReads(buf, o + 1, v, w);
    } else if ReadHead(buf, o) == Ok(Head(major, v, w)) {
      BigEndianOfValue(buf, o + 1, Size(w));
    }
  }

  /** The tree of heads standing at `o`: what is left of an encoded item once its heads have
      been read. */
  ghost predicate Stands(buf: seq<Byte>, heads: seq<Result<Head, Error>>, o: nat, item: Item)
    decreases item
  {
    && o < |heads|
    && heads[o] == Ok(item.Start())
    && At(buf, item.Start().After(o), item.payload)
    && AllStand(buf, heads, item.Start().Body(o), item.children)
  }

  ghost predicate AllStand(buf: seq<Byte>, heads: seq<Result<Head, Error>>, o: nat, items: Items)
    decreases items
  {
    if items.Nil? then o <= |heads|
    else Stands(buf, heads, o, items.head) && AllStand(buf, heads, o + Length(items.head), items.tail)
  }

  lemma {:induction false} StandsWhereEncoded(buf: seq<Byte>, o: nat, item: Item)
    requires WellFormed(item)
    ensures Stands(buf, Heads(buf), o, item) <==> At(buf, o, Encode(item))
    decreases item
  {
    var head := EncodeHead(item.major, item.arg, item.width);
    HeadReads(buf, o, item.major, item.arg, item.width);
    AtSplit(buf, o, head + item.payload, EncodeAll(item.children));
    AtSplit(buf, o, head, item.payload);
    AllStandWhereEncoded(buf, item.Start().Body(o), item.children);
  }

  lemma {:induction false} AllStandWhereEncoded(buf: seq<Byte>, o: nat, items: Items)
    requires AllWellFormed(items)
    ensures AllStand(buf, Heads(buf), o, items) <==> At(buf, o, EncodeAll(items))
    decreases items
  {
    if items.Cons? {
      AtSplit(buf, o, Encode(items.head), EncodeAll(items.tail));
      StandsWhereEncoded(buf, o, items.head);
      AllStandWhereEncoded(buf, o + Length(items.head), items.tail);
    }
  }

  /** Completeness: wherever a well-formed item stands, whatever follows it and however many
      items are still pending, the reader steps over exactly its encoding. */
  lemma {:induction false} StandingItemIsSkipped(
      buf: seq<Byte>, heads: seq<Result<Head, Error>>, o: nat, item: Item, pending: nat)
    requires |heads| == |buf| && WellFormed(item) && Stands(buf, heads, o, item)
    ensures Skip(heads, o, pending + 1) == Skip(heads, o + Length(item), pending)
    decreases item
  {
    StandingItemsAreSkipped(buf, heads, item.Start().Body(o), item.children, pending);
  }

  lemma {:induction false} StandingItemsAreSkipped(
      buf: seq<Byte>, heads: seq<Result<Head, Error>>, o: nat, items: Items, pending: nat)
    requires |heads| == |buf| && AllWellFormed(items) && AllStand(buf, heads, o, items)
    ensures Skip(heads, o, pending + Count(items)) == Skip(heads, o + LengthAll(items), pending)
    decreases items
  {
    if items.Cons? {
      StandingItemIsSkipped(buf, heads, o, items.head, pending + Count(items.tail));
      StandingItemsAreSkipped(buf, heads, o + Length(items.head), items.tail, pending);
    }
  }

  /** A standing item's length is read. */
  lemma ItemReads(buf: seq<Byte>, o: nat, item: Item)
    requires WellFormed(item) && At(buf, o, Encode(item))
    ensures ItemLength(buf, o) == Ok(|Encode(item)|)
  {
    StandsWhereEncoded(buf, o, item);
    StandingItemIsSkipped(buf, Heads(buf), o, item, 0);
  }

  /** Every head read has an argument that fits its width. */
  ghost predicate AllFit(heads: seq<Result<Head, Error>>) {
    forall o :: 0 <= o < |heads| && heads[o].Ok? ==> Fits(heads[o].value.arg, heads[o].value.width)
  }

  lemma HeadsFit(buf: seq<Byte>)
    ensures AllFit(Heads(buf))
  {
    forall o | 0 <= o < |buf| && Heads(buf)[o].Ok?
      ensures Fits(Heads(buf)[o].value.arg, Heads(buf)[o].value.width)
    {
      BigEndianOfValue(buf, o + 1, Size(WidthOf(buf[o] % 32)));
      Powers();
    }
  }

  /** Soundness: whatever run of items the reader steps over, well-formed items of exactly
      that extent stand there. */
  lemma {:induction false} SkippedItemsStand(
      buf: seq<Byte>, heads: seq<Result<Head, Error>>, o: nat, count: nat, end: nat)
    returns (items: Items)
    requires |heads| == |buf| && o <= |heads| && AllFit(heads) && Skip(heads, o, count) == Ok(end)
    ensures AllWellFormed(items) && Count(items) == count
    ensures AllStand(buf, heads, o, items) && o + LengthAll(items) == end
    decreases |heads| - o
  {
    if count == 0 {
      items := Nil;
    } else {
      var body, middle := FirstItemThenRest(heads, o, count);
      var children := SkippedItemsStand(buf, heads, body, heads[o].value.Children(), middle);
      var first := StandingItem(buf, heads, o, children);
      var rest := SkippedItemsStand(buf, heads, middle, count - 1, end);
      items := Cons(first, rest);
    }
  }

  /** The item whose head was read at `o` and whose children stand behind its payload. */
  lemma StandingItem(buf: seq<Byte>, heads: seq<Result<Head, Error>>, o: nat, children: Items) returns (item: Item)
    requires |heads| == |buf| && o < |heads| && heads[o].Ok? && AllFit(heads)
    requires heads[o].value.Body(o) <= |heads|
    requires AllWellFormed(children) && Count(children) == heads[o].value.Children()
    requires AllStand(buf, heads, heads[o].value.Body(o), children)
    ensures WellFormed(item) && Stands(buf, heads, o, item)
    ensures o + Length(item) == heads[o].value.Body(o) + LengthAll(children)
  {
    var h := heads[o].value;
    item := Item(h.major, h.arg, h.width, buf[h.After(o)..h.Body(o)], children);
  }

  lemma FirstItemThenRest(heads: seq<Result<Head, Error>>, o: nat, count: nat) returns (body: nat, middle: nat)
    requires o <= |heads| && count > 0 && Skip(heads, o, count).Ok?
    ensures o < |heads| && heads[o].Ok? && o < body == heads[o].value.Body(o) <= middle <= |heads|
    ensures Skip(heads, body, heads[o].value.Children()) == Ok(middle)
    ensures Skip(heads, middle, count - 1) == Skip(heads, o, count)
  {
    body := heads[o].value.Body(o);
    SkipSplits(heads, body, heads[o].value.Children(), count - 1);
    middle := Skip(heads, body, heads[o].value.Children()).value;
  }

  /** The reader returns `n` exactly when the next `n` bytes are one well-formed item. */
  lemma ItemLengthIsExact(buf: seq<Byte>, o: nat, n: nat)
    ensures ItemLength(buf, o) == Ok(n) <==>
              exists item :: WellFormed(item) && |Encode(item)| == n && At(buf, o, Encode(item))
  {
    if ItemLength(buf, o) == Ok(n) {
      HeadsFit(buf);
      var items := SkippedItemsStand(buf, Heads(buf), o, 1, o + n);
      assert items.tail.Nil?;
      StandsWhereEncoded(buf, o, items.head);
      assert WellFormed(items.head) && |Encode(items.head)| == n && At(buf, o, Encode(items.head));
    }
    forall item | WellFormed(item) && |Encode(item)| == n && At(buf, o, Encode(item))
      ensures ItemLength(buf, o) == Ok(n)
    {
      ItemReads(buf, o, item);
    }
  }
}
