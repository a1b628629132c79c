/** Splitting a chunked text into newline-delimited records. */
module Ndjson {
  import opened Prelude
  import opened Text

  /** A line without the carriage return its separator may take. */
  function Strip(s: string): string {
    if s != "" && s[|s| - 1] == '\r' then s[..|s| - 1] else s
  }

  /** The pieces between separators `\r?\n`; always at least one. */
  function Split(s: string): (parts: seq<string>)
    ensures parts != []
    decreases |s|
  {
    var n := IndexFrom(s, '\n', 0);
    if n == |s| then [s] else [Strip(s[..n])] + Split(s[n + 1..])
  }

  function Last(parts: seq<string>): string
    requires parts != []
  {
    parts[|parts| - 1]
  }

  function Init(parts: seq<string>): seq<string>
    requires parts != []
  {
    parts[..|parts| - 1]
  }

  function NonEmpty(parts: seq<string>): seq<string> {
    if parts == [] then []
    else (if parts[0] == "" then [] else [parts[0]]) + NonEmpty(parts[1..])
  }

  /** What a consumer sees: a value for a record that validates, null for one that does not, and
      an exception at the first record that is not JSON. */
  datatype Output<T> = Output(values: seq<Option<T>>, failed: bool)

  function Decode<T>(records: seq<string>, parse: string -> Option<T>, valid: T -> bool): Output<T> {
    if records == [] then Output([], false)
    else
      var parsed := parse(records[0]);
      if parsed.None? then Output([], true)
      else
        var rest := Decode(records[1..], parse, valid);
        Output([if valid(parsed.value) then parsed else None] + rest.values, rest.failed)
  }

  /** The output for a list of pieces, empty ones skipped. */
  function Yielded<T>(pieces: seq<string>, parse: string -> Option<T>, valid: T -> bool): Output<T> {
    Decode(NonEmpty(pieces), parse, valid)
  }

  function Flat(chunks: seq<string>): string {
    if chunks == [] then "" else Flat(chunks[..|chunks| - 1]) + chunks[|chunks| - 1]
  }

  /** The generator: it keeps the last piece for the next chunk. A text cut anywhere, between a
      carriage return and its newline too, yields what splitting the whole text would. */
  method Generate<T>(chunks: seq<string>, parse: string -> Option<T>, valid: T -> bool) returns (out: Output<T>)
    ensures out == Yielded(Split(Flat(chunks)), parse, valid)
  {
    var buf := "";
    out := Output([], false);
    ghost var text := "";
    for next := 0 to |chunks|
      invariant text == Flat(chunks[..next])
      invariant buf == Last(Split(text)) && !out.failed && out == Yielded(Init(Split(text)), parse, valid)
    {
      assert chunks[..next + 1][..next] == chunks[..next];
      SplitAdvances(text, chunks[next]);
      buf := buf + chunks[next];
      var parts := Split(buf);
      buf := Last(parts);
      parts := Init(parts);
      out := YieldAll(Init(Split(text)), parts, parse, valid, out);
      text := text + chunks[next];
      if out.failed {
        FailureIsFinal(text, chunks, next + 1, parse, valid);
        return;
      }
    }
    assert chunks[..|chunks|] == chunks;
    assert Split(text) == Init(Split(text)) + [buf];
    out := YieldAll(Init(Split(text)), [buf], parse, valid, out);
  }

  /** Yields the non-empty pieces, up to the first that is not JSON. */
  method YieldAll<T>(
      ghost done: seq<string>, parts: seq<string>, parse: string -> Option<T>, valid: T -> bool, sofar: Output<T>)
    returns (out: Output<T>)
    requires !sofar.failed && sofar == Yielded(done, parse, valid)
    ensures out == Yielded(done + parts, parse, valid)
  {
    out := sofar;
    assert done + parts[..0] == done;
    for i := 0 to |parts|
      invariant !out.failed && out == Yielded(done + parts[..i], parse, valid)
    {
      assert done + parts[..i + 1] == done + parts[..i] + [parts[i]];
      OneMore(done + parts[..i], parts[i], parse, valid);
      if |parts[i]| > 0 {
        var parsed := parse(parts[i]);
        if parsed.None? {
          out := out.(failed := true);
          assert done + parts == done + parts[..i + 1] + parts[i + 1..];
          FailureStays(done + parts[..i + 1], parts[i + 1..], parse, valid);
          return;
        }
        out := out.(values := out.values + [if valid(parsed.value) then parsed else None]);
      }
    }
    assert parts[..|parts|] == parts;
  }

  /** What one more piece adds to an output that has not failed. */
  lemma OneMore<T>(done: seq<string>, piece: string, parse: string -> Option<T>, valid: T -> bool)
    requires !Yielded(done, parse, valid).failed
    ensures var before := Yielded(done, parse, valid);
            Yielded(done + [piece], parse, valid) ==
              if piece == "" then before
              else if parse(piece).None? then before.(failed := true)
              else before.(values := before.values + [if valid(parse(piece).value) then parse(piece) else None])
  {
    NonEmptyAppends(done, [piece]);
    assert [piece][1..] == [];
    DecodeAppends(NonEmpty(done), NonEmpty([piece]), parse, valid);
  }

  /** Once a record failed to parse, what follows makes no difference. */
  lemma FailureStays<T>(done: seq<string>, more: seq<string>, parse: string -> Option<T>, valid: T -> bool)
    requires Yielded(done, parse, valid).failed
    ensures Yielded(done + more, parse, valid) == Yielded(done, parse, valid)
  {
    NonEmptyAppends(done, more);
    DecodeAppends(NonEmpty(done), NonEmpty(more), parse, valid);
  }

  // ---------------------------------------------------------------------------
  // Splitting resumes
  // ---------------------------------------------------------------------------

  lemma FirstLine(front: string, rest: string)
    requires Free(front, '\n')
    ensures Split(front + ['\n'] + rest) == [Strip(front)] + Split(rest)
  {
    var s := front + ['\n'] + rest;
    IndexIs(s, '\n', |front|);
    assert s[..|front|] == front && s[|front| + 1..] == rest;
  }

  /** Splitting a longer text keeps every piece but the last, and goes on from that one. */
  lemma {:induction false} SplitResumes(a: string, b: string)
    ensures Split(a + b) == Init(Split(a)) + Split(Last(Split(a)) + b)
    decreases |a|
  {
    var n := IndexFrom(a, '\n', 0);
    if n < |a| {
      var front, rest := a[..n], a[n + 1..];
      assert a == front + ['\n'] + rest && a + b == front + ['\n'] + (rest + b);
      FirstLine(front, rest);
      FirstLine(front, rest + b);
      SplitResumes(rest, b);
      InitOfCons(Strip(front), Split(rest));
      Regroup([Strip(front)], Init(Split(rest)), Split(Last(Split(rest)) + b));
    }
  }

  lemma InitOfCons(line: string, parts: seq<string>)
    requires parts != []
    ensures Init([line] + parts) == [line] + Init(parts) && Last([line] + parts) == Last(parts)
  {
  }

  lemma SplitAdvances(a: string, b: string)
    ensures var parts := Split(Last(Split(a)) + b);
            && Init(Split(a + b)) == Init(Split(a)) + Init(parts)
            && Last(Split(a + b)) == Last(parts)
  {
    SplitResumes(a, b);
  }

  lemma {:induction false} NonEmptyAppends(a: seq<string>, b: seq<string>)
    ensures NonEmpty(a + b) == NonEmpty(a) + NonEmpty(b)
    decreases |a|
  {
    if a == [] {
      assert a + b == b;
    } else {
      assert (a + b)[1..] == a[1..] + b;
      NonEmptyAppends(a[1..], b);
    }
  }

  lemma {:induction false} DecodeAppends<T>(
      a: seq<string>, b: seq<string>, parse: string -> Option<T>, valid: T -> bool)
    ensures var first := Decode(a, parse, valid);
            var second := Decode(b, parse, valid);
            Decode(a + b, parse, valid) ==
              if first.failed then first else Output(first.values + second.values, second.failed)
    decreases |a|
  {
    if a == [] {
      assert a + b == b;
    } else {
      assert (a + b)[0] == a[0] && (a + b)[1..] == a[1..] + b;
      DecodeAppends(a[1..], b, parse, valid);
      var parsed := parse(a[0]);
      if parsed.Some? {
        var head := [if valid(parsed.value) then parsed else None];
        Regroup(head, Decode(a[1..], parse, valid).values, Decode(b, parse, valid).values);
      }
    }
  }

  lemma FailureIsFinal<T>(text: string, chunks: seq<string>, n: nat, parse: string -> Option<T>, valid: T -> bool)
    requires n <= |chunks| && text == Flat(chunks[..n]) && Yielded(Init(Split(text)), parse, valid).failed
    ensures Yielded(Split(Flat(chunks)), parse, valid) == Yielded(Init(Split(text)), parse, valid)
  {
    var rest := FlatSplits(chunks, n);
    SplitResumes(text, rest);
    FailureStays(Init(Split(text)), Split(Last(Split(text)) + rest), parse, valid);
  }

  lemma {:induction false} FlatSplits(chunks: seq<string>, n: nat) returns (rest: string)
    requires n <= |chunks|
    ensures Flat(chunks) == Flat(chunks[..n]) + rest
    decreases |chunks| - n
  {
    if n == |chunks| {
      assert chunks[..n] == chunks;
      rest := "";
    } else {
      var more := FlatSplits(chunks, n + 1);
      assert chunks[..n + 1][..n] == chunks[..n];
      Regroup(Flat(chunks[..n]), chunks[n], more);
      rest := chunks[n] + more;
    }
  }

  // ---------------------------------------------------------------------------
  // What the pieces are
  // ---------------------------------------------------------------------------

  /** Lines without newlines, each but the last ended by a newline or, where `crs` says so, by a
      carriage return and a newline. */
  function Join(lines: seq<string>, crs: seq<bool>): string
    requires |lines| == |crs| + 1
  {
    if crs == [] then lines[0]
    else lines[0] + (if crs[0] then "\r\n" else "\n") + Join(lines[1..], crs[1..])
  }

  /** Splitting undoes joining, whichever separator ends each line, unless a bare newline follows
      a line that itself ends in a carriage return. */
  lemma {:induction false} SplitUndoesJoin(lines: seq<string>, crs: seq<bool>)
    requires |lines| == |crs| + 1 && forall i :: 0 <= i < |lines| ==> Free(lines[i], '\n')
    requires forall i :: 0 <= i < |crs| && !crs[i] ==> !EndsInReturn(lines[i])
    ensures Split(Join(lines, crs)) == lines
    decreases |lines|
  {
    if crs == [] {
      assert lines == [lines[0]];
    } else {
      var line, rest := lines[0], Join(lines[1..], crs[1..]);
      var front := if crs[0] then line + "\r" else line;
      assert Join(lines, crs) == front + ['\n'] + rest;
      FirstLine(front, rest);
      StripsSeparator(line, crs[0]);
      SplitUndoesJoin(lines[1..], crs[1..]);
      assert lines == [line] + lines[1..];
    }
  }

  predicate EndsInReturn(line: string) {
    line != "" && line[|line| - 1] == '\r'
  }

  lemma StripsSeparator(line: string, cr: bool)
    requires !cr ==> !EndsInReturn(line)
    ensures Strip(if cr then line + "\r" else line) == line
  {
    assert (line + "\r")[..|line|] == line;
  }
}
