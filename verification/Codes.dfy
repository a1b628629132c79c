/** Prefix-free codes. They show that the laws asked of printing, hashing and sealing elsewhere can
    all be met: whatever has such a code can be printed and parsed back. */
module Codes {
  import opened Prelude

  function Unary(n: nat): seq<bool> {
    if n == 0 then [false] else [true] + Unary(n - 1)
  }

  function Integer(i: int): seq<bool> {
    [i < 0] + Unary(if i < 0 then -i else i)
  }

  /** A string, each character announced and the end marked. */
  function Word(s: string): (r: seq<bool>)
    ensures |r| > |s|
  {
    if s == "" then [false] else [true] + (Unary(s[0] as int) + Word(s[1..]))
  }

  lemma Unpair(a: bool, b: bool, x: seq<bool>, y: seq<bool>)
    requires [a] + x == [b] + y
    ensures a == b && x == y
  {
    assert ([a] + x)[0] == a && ([b] + y)[0] == b;
    assert ([a] + x)[1..] == x && ([b] + y)[1..] == y;
  }

  lemma {:induction false} UnaryIsPrefixFree(m: nat, n: nat, x: seq<bool>, y: seq<bool>)
    requires Unary(m) + x == Unary(n) + y
    ensures m == n && x == y
  {
    if m > 0 {
      Regroup([true], Unary(m - 1), x);
    }
    if n > 0 {
      Regroup([true], Unary(n - 1), y);
    }
    Unpair(m > 0, n > 0, if m > 0 then Unary(m - 1) + x else x, if n > 0 then Unary(n - 1) + y else y);
    if m > 0 {
      UnaryIsPrefixFree(m - 1, n - 1, x, y);
    }
  }

  lemma {:induction false} UnaryLength(n: nat)
    ensures |Unary(n)| == n + 1
  {
    if n > 0 {
      UnaryLength(n - 1);
    }
  }

  lemma IntegerIsPrefixFree(i: int, j: int, x: seq<bool>, y: seq<bool>)
    requires Integer(i) + x == Integer(j) + y
    ensures i == j && x == y
  {
    var m, n := if i < 0 then -i else i, if j < 0 then -j else j;
    Regroup([i < 0], Unary(m), x);
    Regroup([j < 0], Unary(n), y);
    Unpair(i < 0, j < 0, Unary(m) + x, Unary(n) + y);
    UnaryIsPrefixFree(m, n, x, y);
  }

  lemma {:induction false} WordIsPrefixFree(s: string, t: string, x: seq<bool>, y: seq<bool>)
    requires Word(s) + x == Word(t) + y
    ensures s == t && x == y
    decreases |s|
  {
    WordSplits(s, x);
    WordSplits(t, y);
    Unpair(s != "", t != "", AfterFirst(s) + x, AfterFirst(t) + y);
    if s != "" {
      Regroup(Unary(s[0] as int), Word(s[1..]), x);
      Regroup(Unary(t[0] as int), Word(t[1..]), y);
      UnaryIsPrefixFree(s[0] as int, t[0] as int, Word(s[1..]) + x, Word(t[1..]) + y);
      WordIsPrefixFree(s[1..], t[1..], x, y);
      assert s == [s[0]] + s[1..] && t == [t[0]] + t[1..];
    } else {
      assert AfterFirst(s) + x == x && AfterFirst(t) + y == y;
    }
  }

  function AfterFirst(s: string): seq<bool> {
    if s == "" then [] else Unary(s[0] as int) + Word(s[1..])
  }

  lemma WordSplits(s: string, x: seq<bool>)
    ensures Word(s) + x == [s != ""] + (AfterFirst(s) + x)
  {
    assert Word(s) == [s != ""] + AfterFirst(s);
    Regroup([s != ""], AfterFirst(s), x);
  }

  /** A list of strings, each announced and the end marked. */
  function Words(list: seq<string>): seq<bool>
    decreases |list|, 1
  {
    [list != []] + WordsTail(list)
  }

  function WordsTail(list: seq<string>): seq<bool>
    decreases |list|, 0
  {
    if list == [] then [] else Word(list[0]) + Words(list[1..])
  }

  lemma {:induction false} WordsArePrefixFree(a: seq<string>, b: seq<string>, x: seq<bool>, y: seq<bool>)
    requires Words(a) + x == Words(b) + y
    ensures a == b && x == y
    decreases |a|
  {
    Regroup([a != []], WordsTail(a), x);
    Regroup([b != []], WordsTail(b), y);
    Unpair(a != [], b != [], WordsTail(a) + x, WordsTail(b) + y);
    if a != [] {
      Regroup(Word(a[0]), Words(a[1..]), x);
      Regroup(Word(b[0]), Words(b[1..]), y);
      WordIsPrefixFree(a[0], b[0], Words(a[1..]) + x, Words(b[1..]) + y);
      WordsArePrefixFree(a[1..], b[1..], x, y);
      assert a == [a[0]] + a[1..] && b == [b[0]] + b[1..];
    } else {
      assert WordsTail(a) + x == x && WordsTail(b) + y == y;
    }
  }

  /** Bits written as characters, and as bytes. */
  function AsText(bits: seq<bool>): (s: string)
    ensures |s| == |bits| && forall k :: 0 <= k < |s| ==> s[k] == 't' || s[k] == 'f'
  {
    seq(|bits|, i requires 0 <= i < |bits| => if bits[i] then 't' else 'f')
  }

  lemma TextIsInjective(a: seq<bool>, b: seq<bool>)
    requires AsText(a) == AsText(b)
    ensures a == b
  {
    forall k | 0 <= k < |a| ensures a[k] == b[k] {
      assert AsText(a)[k] == AsText(b)[k];
    }
  }

  function AsBytes(bits: seq<bool>): (s: seq<Byte>)
    ensures |s| == |bits|
  {
    seq(|bits|, i requires 0 <= i < |bits| => if bits[i] then 1 else 0)
  }

  lemma BytesAreInjective(a: seq<bool>, b: seq<bool>)
    requires AsBytes(a) == AsBytes(b)
    ensures a == b
  {
    forall k | 0 <= k < |a| ensures a[k] == b[k] {
      assert AsBytes(a)[k] == AsBytes(b)[k];
    }
  }
}
