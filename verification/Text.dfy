/** Splitting and joining on a character, and decimal integers. */
module Text {
  import opened Prelude

  /** The first `c` at or after `i`, or the length. */
  function IndexFrom(s: string, c: char, i: nat): (n: nat)
    requires i <= |s|
    ensures i <= n <= |s| && (n < |s| ==> s[n] == c)
    ensures forall k :: i <= k < n ==> s[k] != c
    decreases |s| - i
  {
    if i == |s| || s[i] == c then i else IndexFrom(s, c, i + 1)
  }

  lemma IndexIs(s: string, c: char, n: nat)
    requires n < |s| && s[n] == c && forall k :: 0 <= k < n ==> s[k] != c
    ensures IndexFrom(s, c, 0) == n
  {
  }

  predicate Free(s: string, c: char) {
    forall k :: 0 <= k < |s| ==> s[k] != c
  }

  lemma FreeParts(a: string, b: string, c: char)
    ensures Free(a + b, c) <==> Free(a, c) && Free(b, c)
  {
    if Free(a + b, c) {
      forall k | 0 <= k < |a| ensures a[k] != c {
        assert (a + b)[k] == a[k];
      }
      forall k | 0 <= k < |b| ensures b[k] != c {
        assert (a + b)[|a| + k] == b[k];
      }
    }
  }

  /** The pieces between occurrences of `c`; always at least one. */
  function SplitOn(s: string, c: char): (parts: seq<string>)
    ensures parts != []
    decreases |s|
  {
    var n := IndexFrom(s, c, 0);
    if n == |s| then [s] else [s[..n]] + SplitOn(s[n + 1..], c)
  }

  function JoinWith(parts: seq<string>, c: char): string
    requires parts != []
  {
    if |parts| == 1 then parts[0] else parts[0] + [c] + JoinWith(parts[1..], c)
  }

  lemma {:induction false} JoinAppends(parts: seq<string>, last: string, c: char)
    requires parts != []
    ensures JoinWith(parts + [last], c) == JoinWith(parts, c) + [c] + last
    decreases |parts|
  {
    if |parts| == 1 {
      assert (parts + [last])[1..] == [last];
    } else {
      assert (parts + [last])[1..] == parts[1..] + [last];
      JoinAppends(parts[1..], last, c);
      Regroup(parts[0] + [c], JoinWith(parts[1..], c), [c] + last);
      Regroup(JoinWith(parts[1..], c), [c], last);
      Regroup(JoinWith(parts, c), [c], last);
    }
  }

  lemma FirstPiece(front: string, rest: string, c: char)
    requires Free(front, c)
    ensures SplitOn(front + [c] + rest, c) == [front] + SplitOn(rest, c)
  {
    var s := front + [c] + rest;
    IndexIs(s, c, |front|);
    assert s[..|front|] == front && s[|front| + 1..] == rest;
  }

  lemma {:induction false} SplitUndoesJoin(parts: seq<string>, c: char)
    requires parts != [] && forall i :: 0 <= i < |parts| ==> Free(parts[i], c)
    ensures SplitOn(JoinWith(parts, c), c) == parts
    decreases |parts|
  {
    if |parts| == 1 {
      assert parts == [parts[0]];
    } else {
      FirstPiece(parts[0], JoinWith(parts[1..], c), c);
      SplitUndoesJoin(parts[1..], c);
    }
  }

  lemma {:induction false} JoinUndoesSplit(s: string, c: char)
    ensures JoinWith(SplitOn(s, c), c) == s
    ensures forall i :: 0 <= i < |SplitOn(s, c)| ==> Free(SplitOn(s, c)[i], c)
    decreases |s|
  {
    var n := IndexFrom(s, c, 0);
    if n < |s| {
      JoinUndoesSplit(s[n + 1..], c);
      var rest := SplitOn(s[n + 1..], c);
      assert ([s[..n]] + rest)[1..] == rest;
      assert s == s[..n] + [c] + s[n + 1..];
    }
  }

  // ---------------------------------------------------------------------------
  // Decimal integers
  // ---------------------------------------------------------------------------

  predicate IsDigit(c: char) {
    '0' <= c <= '9'
  }

  function DigitOf(d: nat): (c: char)
    requires d < 10
    ensures IsDigit(c)
  {
    '0' + d as char
  }

  function ValueOf(c: char): nat
    requires IsDigit(c)
  {
    (c - '0') as int
  }

  predicate AllDigits(s: string) {
    forall k :: 0 <= k < |s| ==> IsDigit(s[k])
  }

  function Digits(n: nat): (s: string)
    ensures s != "" && AllDigits(s)
  {
    if n < 10 then [DigitOf(n)] else Digits(n / 10) + [DigitOf(n % 10)]
  }

  function Natural(s: string): nat
    requires AllDigits(s)
  {
    if s == "" then 0 else Natural(s[..|s| - 1]) * 10 + ValueOf(s[|s| - 1])
  }

  lemma {:induction false} NaturalOfDigits(n: nat)
    ensures Natural(Digits(n)) == n
  {
    if n >= 10 {
      NaturalOfDigits(n / 10);
      assert Digits(n)[..|Digits(n)| - 1] == Digits(n / 10);
    } else {
      assert Natural([DigitOf(n)]) == Natural([DigitOf(n)][..0]) * 10 + n;
    }
  }

  const MIN64 := -0x8000_0000_0000_0000
  const MAX64 := 0x7fff_ffff_ffff_ffff

  predicate IsInt64(n: int) {
    MIN64 <= n <= MAX64
  }

  /** Decimal formatting of a signed integer. */
  function FormatInt(n: int): string {
    if n < 0 then "-" + Digits(-n) else Digits(n)
  }

  /** Decimal parsing of a signed 64-bit integer: an optional sign and at least one digit, which
      may be leading zeros. */
  function ParseInt(s: string): Option<int> {
    if s == "" then None
    else
      var signed := s[0] == '-' || s[0] == '+';
      var digits := if signed then s[1..] else s;
      if digits == "" || !AllDigits(digits) then None
      else
        var n: int := if s[0] == '-' then -(Natural(digits) as int) else Natural(digits);
        if IsInt64(n) then Some(n) else None
  }

  /** Plainly written: no sign but a minus, and no leading zero. */
  lemma {:induction false} DigitsArePlain(n: nat)
    ensures Digits(n)[0] == '0' <==> n == 0
    ensures |Digits(n)| == 1 <==> n < 10
    decreases n
  {
    if n >= 10 {
      DigitsArePlain(n / 10);
    }
  }

  lemma FormatIsPlain(n: int)
    ensures n > 0 ==> AllDigits(FormatInt(n)) && FormatInt(n)[0] != '0'
    ensures n == 0 ==> FormatInt(n) == "0"
    ensures n < 0 ==> FormatInt(n) == "-" + FormatInt(-n)
  {
    DigitsArePlain(if n < 0 then -n else n);
  }

  /** Digits are read with or without a sign, leading zeros and all, as far as 64 bits go. */
  lemma SignedDigitsAreRead(s: string)
    requires s != "" && AllDigits(s)
    ensures var n: int := Natural(s);
            && ParseInt(s) == (if n <= MAX64 then Some(n) else None)
            && ParseInt("+" + s) == (if n <= MAX64 then Some(n) else None)
            && ParseInt("-" + s) == (if -n >= MIN64 then Some(-n) else None)
  {
    assert ("+" + s)[1..] == s && ("-" + s)[1..] == s;
    assert IsDigit(s[0]);
  }

  /** Nothing else is read. */
  lemma OnlyDigitsAreRead(s: string)
    requires ParseInt(s).Some?
    ensures s != "" && (AllDigits(s) || (s[0] in {'+', '-'} && |s| > 1 && AllDigits(s[1..])))
  {
  }

  lemma ParseUndoesFormat(n: int)
    requires IsInt64(n)
    ensures ParseInt(FormatInt(n)) == Some(n)
  {
    NaturalOfDigits(if n < 0 then -n else n);
    if n < 0 {
      assert ("-" + Digits(-n))[1..] == Digits(-n);
    } else {
      assert IsDigit(Digits(n)[0]);
    }
  }

  lemma FormatIsFree(n: int, c: char)
    requires !IsDigit(c) && c != '-'
    ensures Free(FormatInt(n), c)
  {
    var digits := Digits(if n < 0 then -n else n);
    assert Free(digits, c) by {
      assert forall k :: 0 <= k < |digits| ==> IsDigit(digits[k]);
    }
    FreeParts("-", digits, c);
  }
}
