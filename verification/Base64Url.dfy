/** Unpadded base64url (section 5 of RFC 4648), with the decoder's tolerance for line breaks. */
module Base64Url {
  import opened Prelude

  type Sextet = v: int | 0 <= v < 64

  function Symbol(v: Sextet): char {
    if v < 26 then 'A' + v as char
    else if v < 52 then 'a' + (v - 26) as char
    else if v < 62 then '0' + (v - 52) as char
    else if v == 62 then '-'
    else '_'
  }

  function SextetOf(c: char): Option<Sextet> {
    if 'A' <= c <= 'Z' then Some((c - 'A') as int)
    else if 'a' <= c <= 'z' then Some((c - 'a') as int + 26)
    else if '0' <= c <= '9' then Some((c - '0') as int + 52)
    else if c == '-' then Some(62)
    else if c == '_' then Some(63)
    else None
  }

  lemma SymbolReads(v: Sextet)
    ensures SextetOf(Symbol(v)) == Some(v)
  {
  }

  /** The alphabet of table 2 of RFC 4648, range by range; nothing else is a symbol. */
  lemma SymbolsAreTheAlphabet(v: Sextet, c: char)
    ensures Symbol(0) == 'A' && Symbol(25) == 'Z' && Symbol(26) == 'a' && Symbol(51) == 'z'
    ensures Symbol(52) == '0' && Symbol(61) == '9' && Symbol(62) == '-' && Symbol(63) == '_'
    ensures v < 61 && v != 25 && v != 51 ==> Symbol(v + 1) as int == Symbol(v) as int + 1
    ensures SextetOf(c).Some? <==> c == '-' || c == '_' || '0' <= c <= '9' || 'A' <= c <= 'Z' || 'a' <= c <= 'z'
  {
  }

  predicate IsSymbol(c: char) {
    SextetOf(c).Some?
  }

  predicate AllSymbols(s: string) {
    forall k :: 0 <= k < |s| ==> IsSymbol(s[k])
  }

  /** The middle sextets of a group; the first and last are `a / 4` and `c % 64`. */
  function Middle1(a: Byte, b: Byte): Sextet {
    a % 4 * 16 + b / 16
  }

  function Middle2(b: Byte, c: Byte): Sextet {
    b % 16 * 4 + c / 64
  }

  function Sextets(b: seq<Byte>): seq<Sextet> {
    if |b| == 0 then []
    else if |b| == 1 then [b[0] / 4, Middle1(b[0], 0)]
    else if |b| == 2 then [b[0] / 4, Middle1(b[0], b[1]), Middle2(b[1], 0)]
    else [b[0] / 4, Middle1(b[0], b[1]), Middle2(b[1], b[2]), b[2] % 64] + Sextets(b[3..])
  }

  function Encode(b: seq<Byte>): (s: string)
    ensures |s| == |Sextets(b)|
  {
    var v := Sextets(b);
    seq(|v|, i requires 0 <= i < |v| => Symbol(v[i]))
  }

  /** The three bytes of four sextets. */
  function First(a: int, b: int): (r: int)
    ensures 0 <= a < 64 && 0 <= b < 64 ==> 0 <= r < 256
  {
    a * 4 + b / 16
  }

  function Second(b: int, c: int): (r: int)
    ensures 0 <= b < 64 && 0 <= c < 64 ==> 0 <= r < 256
  {
    b % 16 * 16 + c / 4
  }

  function Third(c: int, d: int): (r: int)
    ensures 0 <= c < 64 && 0 <= d < 64 ==> 0 <= r < 256
  {
    c % 4 * 64 + d
  }

  /** Bytes of whole and partial groups; a lone sextet is no group, and spare bits are ignored. */
  function Bytes(v: seq<Sextet>): Option<seq<Byte>> {
    if |v| == 0 then Some([])
    else if |v| == 1 then None
    else if |v| == 2 then Some([First(v[0], v[1])])
    else if |v| == 3 then Some([First(v[0], v[1]), Second(v[1], v[2])])
    else
      var rest := Bytes(v[4..]);
      if rest.None? then None
      else Some([First(v[0], v[1]), Second(v[1], v[2]), Third(v[2], v[3])] + rest.value)
  }

  function Symbols(s: string): Option<seq<Sextet>> {
    if s == "" then Some([])
    else if s[0] == '\n' || s[0] == '\r' then Symbols(s[1..])
    else if SextetOf(s[0]).None? then None
    else
      var rest := Symbols(s[1..]);
      if rest.None? then None else Some([SextetOf(s[0]).value] + rest.value)
  }

  /** A line break anywhere makes no difference. */
  lemma {:induction false} LineBreaksAreIgnored(a: string, c: char, b: string)
    requires c == '\n' || c == '\r'
    ensures Symbols(a + [c] + b) == Symbols(a + b)
    decreases |a|
  {
    if a == "" {
      assert (a + [c] + b)[1..] == b && a + b == b;
    } else {
      assert (a + [c] + b)[1..] == a[1..] + [c] + b && (a + b)[1..] == a[1..] + b;
      LineBreaksAreIgnored(a[1..], c, b);
    }
  }

  lemma SpareBits(a: Byte, b: Byte)
    ensures Middle1(a, 0) % 16 == 0 && Middle2(b, 0) % 4 == 0
  {
  }

  /** The bits of the last symbol that belong to no byte are zero. */
  lemma {:induction false} SpareBitsAreZero(b: seq<Byte>)
    requires |b| % 3 != 0
    ensures Sextets(b) != [] && Sextets(b)[|Sextets(b)| - 1] % (if |b| % 3 == 1 then 16 else 4) == 0
    decreases |b|
  {
    if |b| == 1 {
      SpareBits(b[0], 0);
    } else if |b| == 2 {
      SpareBits(0, b[1]);
    } else {
      assert |b[3..]| % 3 == |b| % 3;
      SpareBitsAreZero(b[3..]);
      var first := [b[0] / 4, Middle1(b[0], b[1]), Middle2(b[1], b[2]), b[2] % 64];
      LastOfRest(first, Sextets(b[3..]), Sextets(b));
    }
  }

  lemma LastOfRest(first: seq<Sextet>, rest: seq<Sextet>, all: seq<Sextet>)
    requires rest != [] && all == first + rest
    ensures all[|all| - 1] == rest[|rest| - 1]
  {
  }

  function Decode(s: string): Option<seq<Byte>> {
    var v := Symbols(s);
    if v.None? then None else Bytes(v.value)
  }

  lemma EncodedIsSymbols(b: seq<Byte>)
    ensures AllSymbols(Encode(b))
  {
    var v := Sextets(b);
    forall k | 0 <= k < |v| ensures IsSymbol(Encode(b)[k]) {
      SymbolReads(v[k]);
    }
  }

  lemma {:induction false} SymbolsRead(v: seq<Sextet>, s: string)
    requires |s| == |v| && forall k :: 0 <= k < |v| ==> s[k] == Symbol(v[k])
    ensures Symbols(s) == Some(v)
    decreases |v|
  {
    if v != [] {
      SymbolReads(v[0]);
      SymbolsRead(v[1..], s[1..]);
      assert v == [v[0]] + v[1..];
    }
  }

  lemma FirstComesBack(a: Byte, b: Byte)
    ensures First(a / 4, Middle1(a, b)) == a
  {
    assert Middle1(a, b) / 16 == a % 4;
  }

  lemma SecondComesBack(a: Byte, b: Byte, c: Byte)
    ensures Second(Middle1(a, b), Middle2(b, c)) == b
  {
    assert Middle1(a, b) % 16 == b / 16;
    assert Middle2(b, c) / 4 == b % 16;
  }

  lemma ThirdComesBack(b: Byte, c: Byte)
    ensures Third(Middle2(b, c), c % 64) == c
  {
    assert Middle2(b, c) % 4 == c / 64;
  }

  lemma {:induction false} BytesOfSextets(b: seq<Byte>)
    ensures Bytes(Sextets(b)) == Some(b)
    decreases |b|
  {
    if |b| == 1 {
      FirstComesBack(b[0], 0);
      assert b == [b[0]];
    } else if |b| == 2 {
      FirstComesBack(b[0], b[1]);
      SecondComesBack(b[0], b[1], 0);
      assert b == [b[0], b[1]];
    } else if |b| >= 3 {
      BytesOfSextets(b[3..]);
      FirstComesBack(b[0], b[1]);
      SecondComesBack(b[0], b[1], b[2]);
      ThirdComesBack(b[1], b[2]);
      assert Sextets(b)[4..] == Sextets(b[3..]);
      assert b == [b[0], b[1], b[2]] + b[3..];
    }
  }

  /** Decoding inverts encoding. */
  lemma DecodeUndoesEncode(b: seq<Byte>)
    ensures Decode(Encode(b)) == Some(b)
  {
    SymbolsRead(Sextets(b), Encode(b));
    BytesOfSextets(b);
  }
}
