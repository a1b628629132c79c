/** The integrity manifest: the text that is signed, and its strict parser. */
module Manifest {
  import opened Prelude
  import opened Text

  datatype FileEntry = FileEntry(path: string, size: int, sha256: string)

  datatype Manifest = Manifest(version: string, commit: string, buildDate: string, files: seq<FileEntry>)

  datatype Error =
    | EmptyManifest
    | CarriageReturn
    | NoFinalNewline
    | NoHeader
    | BadHeader
    | EmptyDate
    | EmptyLine
    | FieldCount
    | BadSize
    | BadHash

  predicate IsLowerHex(c: char) {
    '0' <= c <= '9' || 'a' <= c <= 'f'
  }

  predicate IsSha256(s: string) {
    |s| == 64 && forall k :: 0 <= k < |s| ==> IsLowerHex(s[k])
  }

  lemma HexDigits(c: char)
    ensures IsLowerHex(c) <==> c in "0123456789abcdef"
  {
    var hex := "0123456789abcdef";
    assert |hex| == 16;
    if '0' <= c <= '9' {
      assert hex[c as int - '0' as int] == c;
    } else if 'a' <= c <= 'f' {
      assert hex[c as int - 'a' as int + 10] == c;
    }
  }

  method ValidateSha256Hex(s: string) returns (ok: bool)
    ensures ok == IsSha256(s)
    ensures ok <==> |s| == 64 && forall k :: 0 <= k < |s| ==> s[k] in "0123456789abcdef"
  {
    if |s| != 64 {
      return false;
    }
    for i := 0 to |s|
      invariant forall k :: 0 <= k < i ==> IsLowerHex(s[k])
      invariant forall k :: 0 <= k < i ==> s[k] in "0123456789abcdef"
    {
      var c := s[i];
      HexDigits(c);
      if !(('0' <= c && c <= '9') || ('a' <= c && c <= 'f')) {
        return false;
      }
    }
    return true;
  }

  // ---------------------------------------------------------------------------
  // Printing
  // ---------------------------------------------------------------------------

  function HeaderLine(m: Manifest): string {
    if m.version != "" then m.version + "|" + m.commit else m.commit
  }

  function EntryLine(f: FileEntry): string {
    f.path + "|" + (FormatInt(f.size) + "|" + f.sha256)
  }

  function EntryLines(files: seq<FileEntry>): (r: seq<string>)
    ensures |r| == |files|
  {
    seq(|files|, i requires 0 <= i < |files| => EntryLine(files[i]))
  }

  function Lines(m: Manifest): seq<string> {
    [HeaderLine(m), m.buildDate] + EntryLines(m.files)
  }

  /** Every line with its newline. */
  function Marshal(m: Manifest): string {
    JoinWith(Lines(m), '\n') + "\n"
  }

  method MarshalManifest(m: Manifest) returns (b: string)
    ensures b == Marshal(m)
  {
    b := "";
    if m.version != "" {
      b := b + m.version;
      b := b + "|";
    }
    b := b + m.commit;
    assert b == HeaderLine(m);
    b := b + "\n";
    b := b + m.buildDate;
    b := b + "\n";
    var lines := Lines(m);
    HeadJoins(HeaderLine(m), m.buildDate);
    assert lines[..2] == [HeaderLine(m), m.buildDate];
    for i := 0 to |m.files|
      invariant b == JoinWith(lines[..i + 2], '\n') + "\n"
    {
      var f := m.files[i];
      ghost var before := b;
      b := b + f.path;
      b := b + "|";
      b := b + FormatInt(f.size);
      b := b + "|";
      b := b + f.sha256;
      b := b + "\n";
      EntryWritten(before, f);
      EntryAppends(m, i);
    }
    assert lines[..|m.files| + 2] == lines;
  }

  /** One more line. */
  lemma EntryAppends(m: Manifest, i: nat)
    requires i < |m.files|
    ensures JoinWith(Lines(m)[..i + 3], '\n') == JoinWith(Lines(m)[..i + 2], '\n') + "\n" + EntryLine(m.files[i])
  {
    var lines := Lines(m);
    assert lines[i + 2] == EntryLine(m.files[i]);
    assert lines[..i + 3] == lines[..i + 2] + [lines[i + 2]];
    JoinAppends(lines[..i + 2], lines[i + 2], '\n');
  }

  lemma HeadJoins(a: string, b: string)
    ensures JoinWith([a, b], '\n') == a + "\n" + b
  {
    assert [a, b][1..] == [b];
  }

  lemma EntryWritten(b: string, f: FileEntry)
    ensures b + f.path + "|" + FormatInt(f.size) + "|" + f.sha256 + "\n" == b + EntryLine(f) + "\n"
  {
    var size := FormatInt(f.size);
    Regroup(b + f.path + "|", size, "|");
    Regroup(b + f.path + "|", size + "|", f.sha256);
    Regroup(b + f.path, "|", size + "|" + f.sha256);
    Regroup(b, f.path, "|" + (size + "|" + f.sha256));
    Regroup(f.path, "|", size + "|" + f.sha256);
  }

  // ---------------------------------------------------------------------------
  // Parsing
  // ---------------------------------------------------------------------------

  /** The three fields of an entry line: cut at the first two pipes. */
  function ParseEntry(line: string): Result<FileEntry, Error> {
    if line == "" then Err(EmptyLine)
    else
      var n := IndexFrom(line, '|', 0);
      if n == |line| then Err(FieldCount)
      else
        var rest := line[n + 1..];
        var k := IndexFrom(rest, '|', 0);
        if k == |rest| then Err(FieldCount)
        else
          var size := ParseInt(rest[..k]);
          if size.None? || size.value < 0 then Err(BadSize)
          else if !IsSha256(rest[k + 1..]) then Err(BadHash)
          else Ok(FileEntry(line[..n], size.value, rest[k + 1..]))
  }

  function ParseEntries(lines: seq<string>): (r: seq<Result<FileEntry, Error>>)
    ensures |r| == |lines|
  {
    seq(|lines|, i requires 0 <= i < |lines| => ParseEntry(lines[i]))
  }

  /** Version and commit of the first line, which has at most one pipe and nothing empty. */
  function ParseHeader(line: string): Result<(string, string), Error> {
    var parts := SplitOn(line, '|');
    if |parts| == 1 then
      if line == "" then Err(BadHeader) else Ok(("", line))
    else if |parts| == 2 then
      if parts[0] == "" || parts[1] == "" then Err(BadHeader) else Ok((parts[0], parts[1]))
    else Err(BadHeader)
  }

  function Parse(b: string): Result<Manifest, Error> {
    if b == "" then Err(EmptyManifest)
    else if !Free(b, '\r') then Err(CarriageReturn)
    else if b[|b| - 1] != '\n' then Err(NoFinalNewline)
    else
      var lines := SplitOn(b[..|b| - 1], '\n');
      if |lines| < 2 then Err(NoHeader)
      else
        var header :- ParseHeader(lines[0]);
        if lines[1] == "" then Err(EmptyDate)
        else
          var files :- Collect(ParseEntries(lines[2..]));
          Ok(Manifest(header.0, header.1, lines[1], files))
  }

  method ParseManifest(b: string) returns (r: Result<Manifest, Error>)
    ensures r == Parse(b)
  {
    if |b| == 0 {
      return Err(EmptyManifest);
    }
    if !Free(b, '\r') {
      return Err(CarriageReturn);
    }
    if b[|b| - 1] != '\n' {
      return Err(NoFinalNewline);
    }
    var lines := SplitOn(b[..|b| - 1], '\n');
    if |lines| < 2 {
      return Err(NoHeader);
    }
    var header := ParseHeader(lines[0]);
    if header.Err? {
      return Err(header.error);
    }
    if lines[1] == "" {
      return Err(EmptyDate);
    }
    var files := [];
    ghost var results := ParseEntries(lines[2..]);
    for i := 2 to |lines|
      invariant |files| == i - 2 && forall k :: 0 <= k < i - 2 ==> results[k] == Ok(files[k])
    {
      var entry := ParseFileEntry(lines[i]);
      assert results[i - 2] == entry;
      if entry.Err? {
        CollectFails(results, i - 2);
        return Err(entry.error);
      }
      files := files + [entry.value];
    }
    CollectSucceeds(results, files);
    return Ok(Manifest(header.value.0, header.value.1, lines[1], files));
  }

  method ParseFileEntry(line: string) returns (r: Result<FileEntry, Error>)
    ensures r == ParseEntry(line)
  {
    if |line| == 0 {
      return Err(EmptyLine);
    }
    var n := IndexFrom(line, '|', 0);
    if n == |line| {
      return Err(FieldCount);
    }
    var rest := line[n + 1..];
    var k := IndexFrom(rest, '|', 0);
    if k == |rest| {
      return Err(FieldCount);
    }
    var size := ParseInt(rest[..k]);
    if size.None? || size.value < 0 {
      return Err(BadSize);
    }
    var ok := ValidateSha256Hex(rest[k + 1..]);
    if !ok {
      return Err(BadHash);
    }
    return Ok(FileEntry(line[..n], size.value, rest[k + 1..]));
  }

  // ---------------------------------------------------------------------------
  // The round trip
  // ---------------------------------------------------------------------------

  predicate OneLine(s: string) {
    Free(s, '\n') && Free(s, '\r')
  }

  predicate Plain(s: string) {
    OneLine(s) && Free(s, '|')
  }

  predicate PrintableEntry(f: FileEntry) {
    Plain(f.path) && 0 <= f.size <= MAX64 && IsSha256(f.sha256)
  }

  /** The manifests whose text can be told apart. */
  predicate Printable(m: Manifest) {
    && Plain(m.version)
    && Plain(m.commit) && m.commit != ""
    && OneLine(m.buildDate) && m.buildDate != ""
    && forall i :: 0 <= i < |m.files| ==> PrintableEntry(m.files[i])
  }

  lemma HashIsPlain(s: string)
    requires IsSha256(s)
    ensures Plain(s)
  {
    forall k | 0 <= k < |s| ensures s[k] != '\n' && s[k] != '\r' && s[k] != '|' {
      assert IsLowerHex(s[k]);
    }
  }

  lemma EntryLineIsOneLine(f: FileEntry)
    requires PrintableEntry(f)
    ensures OneLine(EntryLine(f))
  {
    var size := FormatInt(f.size);
    HashIsPlain(f.sha256);
    LineOf(size, f.sha256, '\n');
    LineOf(size, f.sha256, '\r');
    FormatIsFree(f.size, '\n');
    FormatIsFree(f.size, '\r');
    LineOf(f.path, size + "|" + f.sha256, '\n');
    LineOf(f.path, size + "|" + f.sha256, '\r');
  }

  lemma LineOf(a: string, b: string, c: char)
    requires c != '|'
    ensures Free(a + "|" + b, c) <==> Free(a, c) && Free(b, c)
  {
    FreeParts(a, "|", c);
    FreeParts(a + "|", b, c);
  }

  lemma CutAtPipe(a: string, b: string)
    requires Free(a, '|')
    ensures var line := a + "|" + b;
            IndexFrom(line, '|', 0) == |a| < |line| && line[..|a|] == a && line[|a| + 1..] == b
  {
    IndexIs(a + "|" + b, '|', |a|);
  }

  lemma EntryParses(f: FileEntry)
    requires PrintableEntry(f)
    ensures ParseEntry(EntryLine(f)) == Ok(f)
  {
    var size := FormatInt(f.size);
    FormatIsFree(f.size, '|');
    CutAtPipe(f.path, size + "|" + f.sha256);
    CutAtPipe(size, f.sha256);
    ParseUndoesFormat(f.size);
  }

  lemma HeaderParses(m: Manifest)
    requires Printable(m)
    ensures ParseHeader(HeaderLine(m)) == Ok((m.version, m.commit)) && OneLine(HeaderLine(m))
  {
    SplitUndoesJoin([m.commit], '|');
    if m.version != "" {
      var parts := [m.version, m.commit];
      assert parts[1..] == [m.commit];
      assert JoinWith(parts, '|') == m.version + ['|'] + m.commit;
      SplitUndoesJoin(parts, '|');
      LineOf(m.version, m.commit, '\n');
      LineOf(m.version, m.commit, '\r');
    }
  }

  lemma {:induction false} JoinIsFree(lines: seq<string>, c: char, d: char)
    requires lines != [] && c != d
    ensures Free(JoinWith(lines, c), d) <==> forall i :: 0 <= i < |lines| ==> Free(lines[i], d)
    decreases |lines|
  {
    if |lines| > 1 {
      JoinIsFree(lines[1..], c, d);
      FreeParts(lines[0], [c], d);
      FreeParts(lines[0] + [c], JoinWith(lines[1..], c), d);
      assert lines == [lines[0]] + lines[1..];
    }
  }

  lemma LinesAt(m: Manifest, i: nat)
    requires i < |m.files|
    ensures Lines(m)[i + 2] == EntryLine(m.files[i])
  {
  }

  lemma LinesAreOneLine(m: Manifest, i: nat)
    requires Printable(m) && i < |Lines(m)|
    ensures OneLine(Lines(m)[i])
  {
    if i >= 2 {
      LinesAt(m, i - 2);
      EntryLineIsOneLine(m.files[i - 2]);
    } else {
      HeaderParses(m);
    }
  }

  /** Joined lines come back, and none of them has a carriage return. */
  lemma JoinedLinesComeBack(lines: seq<string>)
    requires lines != [] && forall i :: 0 <= i < |lines| ==> OneLine(lines[i])
    ensures SplitOn(JoinWith(lines, '\n'), '\n') == lines && Free(JoinWith(lines, '\n'), '\r')
  {
    JoinIsFree(lines, '\n', '\r');
    SplitUndoesJoin(lines, '\n');
  }

  lemma LinesComeBack(m: Manifest)
    requires Printable(m)
    ensures SplitOn(JoinWith(Lines(m), '\n'), '\n') == Lines(m) && Free(JoinWith(Lines(m), '\n'), '\r')
  {
    forall i | 0 <= i < |Lines(m)| ensures OneLine(Lines(m)[i]) {
      LinesAreOneLine(m, i);
    }
    JoinedLinesComeBack(Lines(m));
  }

  lemma EntriesParse(m: Manifest)
    requires Printable(m)
    ensures Collect(ParseEntries(EntryLines(m.files))) == Ok(m.files)
  {
    forall i | 0 <= i < |m.files| ensures ParseEntries(EntryLines(m.files))[i] == Ok(m.files[i]) {
      EntryParses(m.files[i]);
    }
    CollectSucceeds(ParseEntries(EntryLines(m.files)), m.files);
  }

  /** Parsing inverts printing. */
  lemma ParseUndoesMarshal(m: Manifest)
    requires Printable(m)
    ensures Parse(Marshal(m)) == Ok(m)
  {
    var text, b := JoinWith(Lines(m), '\n'), Marshal(m);
    LinesComeBack(m);
    FreeParts(text, "\n", '\r');
    assert b == text + "\n" && b[|b| - 1] == '\n' && b[..|b| - 1] == text;
    assert Lines(m)[2..] == EntryLines(m.files);
    HeaderParses(m);
    EntriesParse(m);
  }

  lemma ParsedEntryIsPrintable(line: string)
    requires ParseEntry(line).Ok? && OneLine(line)
    ensures PrintableEntry(ParseEntry(line).value)
  {
    var n := IndexFrom(line, '|', 0);
    assert line == line[..n] + "|" + line[n + 1..];
    LineOf(line[..n], line[n + 1..], '\n');
    LineOf(line[..n], line[n + 1..], '\r');
  }

  lemma ParsedHeaderIsPlain(line: string)
    requires ParseHeader(line).Ok? && OneLine(line)
    ensures var h := ParseHeader(line).value; Plain(h.0) && Plain(h.1) && h.1 != ""
  {
    var parts := SplitOn(line, '|');
    JoinUndoesSplit(line, '|');
    JoinIsFree(parts, '|', '\n');
    JoinIsFree(parts, '|', '\r');
  }

  /** Whatever parses is printable. */
  lemma ParsedIsPrintable(b: string)
    requires Parse(b).Ok?
    ensures Printable(Parse(b).value)
  {
    var text := b[..|b| - 1];
    var lines := SplitOn(text, '\n');
    var m := Parse(b).value;
    JoinUndoesSplit(text, '\n');
    JoinIsFree(lines, '\n', '\r');
    ParsedHeaderIsPlain(lines[0]);
    CollectedCount(ParseEntries(lines[2..]));
    CollectSucceeds(ParseEntries(lines[2..]), m.files);
    forall i | 0 <= i < |m.files| ensures PrintableEntry(m.files[i]) {
      assert ParseEntries(lines[2..])[i] == ParseEntry(lines[i + 2]);
      ParsedEntryIsPrintable(lines[i + 2]);
    }
  }

  /** The round trip holds for exactly the printable manifests, so no two of them have the same
      signed text. */
  lemma RoundTripIff(m: Manifest)
    ensures Parse(Marshal(m)) == Ok(m) <==> Printable(m)
  {
    if Printable(m) {
      ParseUndoesMarshal(m);
    }
    if Parse(Marshal(m)) == Ok(m) {
      ParsedIsPrintable(Marshal(m));
    }
  }

  /** The text of the size in an entry line. */
  function SizeText(line: string): string
    requires ParseEntry(line).Ok?
  {
    var rest := line[IndexFrom(line, '|', 0) + 1..];
    rest[..IndexFrom(rest, '|', 0)]
  }

  lemma EntryIsThreeFields(line: string)
    requires ParseEntry(line).Ok?
    ensures line == ParseEntry(line).value.path + "|" + (SizeText(line) + "|" + ParseEntry(line).value.sha256)
  {
    var n := IndexFrom(line, '|', 0);
    CutTwice(line, n, IndexFrom(line[n + 1..], '|', 0));
  }

  lemma CutTwice(line: string, n: nat, k: nat)
    requires n < |line| && line[n] == '|' && k < |line[n + 1..]| && line[n + 1..][k] == '|'
    ensures line == line[..n] + "|" + (line[n + 1..][..k] + "|" + line[n + 1..][k + 1..])
  {
    assert line == line[..n] + "|" + line[n + 1..];
    assert line[n + 1..] == line[n + 1..][..k] + "|" + line[n + 1..][k + 1..];
  }

  lemma ParsedEntryPrints(line: string)
    requires ParseEntry(line).Ok?
    ensures EntryLine(ParseEntry(line).value) == line <==> SizeText(line) == FormatInt(ParseEntry(line).value.size)
  {
    EntryIsThreeFields(line);
    var f := ParseEntry(line).value;
    SameFields(f.path, SizeText(line), FormatInt(f.size), f.sha256);
  }

  lemma SameFields(a: string, b: string, c: string, d: string)
    ensures a + "|" + (b + "|" + d) == a + "|" + (c + "|" + d) <==> b == c
  {
    Regroup(b, "|", d);
    Regroup(c, "|", d);
    Regroup(a + "|", b, "|" + d);
    Regroup(a + "|", c, "|" + d);
    SameMiddle(a + "|", b, c, "|" + d);
  }

  lemma SameMiddle(a: string, b: string, c: string, d: string)
    ensures a + b + d == a + c + d <==> b == c
  {
    if a + b + d == a + c + d {
      assert |b| == |c|;
      assert (a + b + d)[|a|..|a| + |b|] == b && (a + c + d)[|a|..|a| + |c|] == c;
    }
  }

  lemma ParsedHeaderPrints(line: string)
    requires ParseHeader(line).Ok?
    ensures var h := ParseHeader(line).value;
            line == if h.0 != "" then h.0 + "|" + h.1 else h.1
  {
    var parts := SplitOn(line, '|');
    JoinUndoesSplit(line, '|');
    if |parts| == 2 {
      assert parts[1..] == [parts[1]];
    }
  }

  /** Printing inverts parsing exactly when every size was written plainly: of an accepted text
      nothing else is lost, and nothing was passed over. */
  lemma MarshalUndoesParseIff(b: string)
    requires Parse(b).Ok?
    ensures var lines := SplitOn(b[..|b| - 1], '\n');
            && |lines| == |Parse(b).value.files| + 2
            && (forall i :: 2 <= i < |lines| ==> ParseEntry(lines[i]) == Ok(Parse(b).value.files[i - 2]))
            && (Marshal(Parse(b).value) == b <==>
                  forall i :: 2 <= i < |lines| ==> SizeText(lines[i]) == FormatInt(Parse(b).value.files[i - 2].size))
  {
    var lines := SplitOn(b[..|b| - 1], '\n');
    var m := Parse(b).value;
    ParsedParts(b, m, lines);
    ParsedLines(m, lines);
    SameText(b, m, lines);
    assert Marshal(m) == b <==> forall i :: 2 <= i < |lines| ==> Lines(m)[i] == lines[i];
  }

  lemma ParsedParts(b: string, m: Manifest, lines: seq<string>)
    requires Parse(b) == Ok(m) && lines == SplitOn(b[..|b| - 1], '\n')
    ensures |lines| >= 2 && ParseHeader(lines[0]) == Ok((m.version, m.commit)) && lines[1] == m.buildDate
    ensures Collect(ParseEntries(lines[2..])) == Ok(m.files)
  {
  }

  lemma ParsedLines(m: Manifest, lines: seq<string>)
    requires |lines| >= 2 && ParseHeader(lines[0]) == Ok((m.version, m.commit)) && lines[1] == m.buildDate
    requires Collect(ParseEntries(lines[2..])) == Ok(m.files)
    ensures |lines| == |m.files| + 2 == |Lines(m)| && Lines(m)[0] == lines[0] && Lines(m)[1] == lines[1]
    ensures forall i :: 2 <= i < |lines| ==>
              && ParseEntry(lines[i]) == Ok(m.files[i - 2])
              && (Lines(m)[i] == lines[i] <==> SizeText(lines[i]) == FormatInt(m.files[i - 2].size))
  {
    ParsedHeaderPrints(lines[0]);
    ParsedEntries(lines[2..], m.files);
    forall i | 2 <= i < |lines|
      ensures ParseEntry(lines[i]) == Ok(m.files[i - 2])
      ensures Lines(m)[i] == lines[i] <==> SizeText(lines[i]) == FormatInt(m.files[i - 2].size)
    {
      assert lines[2..][i - 2] == lines[i];
      LinesAt(m, i - 2);
    }
  }

  lemma ParsedEntries(lines: seq<string>, files: seq<FileEntry>)
    requires Collect(ParseEntries(lines)) == Ok(files)
    ensures |lines| == |files|
    ensures forall i :: 0 <= i < |lines| ==>
              && ParseEntry(lines[i]) == Ok(files[i])
              && (EntryLine(files[i]) == lines[i] <==> SizeText(lines[i]) == FormatInt(files[i].size))
  {
    CollectedCount(ParseEntries(lines));
    CollectSucceeds(ParseEntries(lines), files);
    forall i | 0 <= i < |lines|
      ensures ParseEntry(lines[i]) == Ok(files[i])
      ensures EntryLine(files[i]) == lines[i] <==> SizeText(lines[i]) == FormatInt(files[i].size)
    {
      assert ParseEntries(lines)[i] == ParseEntry(lines[i]);
      ParsedEntryPrints(lines[i]);
    }
  }

  lemma SameText(b: string, m: Manifest, lines: seq<string>)
    requires Parse(b) == Ok(m) && lines == SplitOn(b[..|b| - 1], '\n') && |Lines(m)| == |lines|
    ensures Marshal(m) == b <==> forall i :: 0 <= i < |lines| ==> Lines(m)[i] == lines[i]
  {
    JoinUndoesSplit(b[..|b| - 1], '\n');
    ParsedIsPrintable(b);
    LinesComeBack(m);
    SameBody(JoinWith(Lines(m), '\n'), JoinWith(lines, '\n'), b);
    assert Lines(m) == lines <==> forall i :: 0 <= i < |lines| ==> Lines(m)[i] == lines[i];
  }

  lemma SameBody(x: string, y: string, b: string)
    requires b != "" && b[|b| - 1] == '\n' && b[..|b| - 1] == y
    ensures x + "\n" == b <==> x == y
  {
    assert b == y + "\n";
    if x + "\n" == b {
      assert (x + "\n")[..|b| - 1] == x;
    }
  }

  /** Which of an entry line's faults is reported. */
  lemma EntryFaults(line: string)
    ensures ParseEntry(line) == Err(EmptyLine) <==> line == ""
    ensures ParseEntry(line) == Err(FieldCount) <==> line != "" && |SplitOn(line, '|')| < 3
    ensures ParseEntry(line) == Err(BadSize) ==> |SplitOn(line, '|')| >= 3
    ensures ParseEntry(line) == Err(BadHash) ==> |SplitOn(line, '|')| >= 3
  {
    var n := IndexFrom(line, '|', 0);
    if n < |line| {
      var rest := line[n + 1..];
      assert SplitOn(line, '|') == [line[..n]] + SplitOn(rest, '|');
    }
  }

  lemma SignedTextIsUnique(m: Manifest, n: Manifest)
    requires Printable(m) && Printable(n)
    ensures Marshal(m) == Marshal(n) <==> m == n
  {
    ParseUndoesMarshal(m);
    ParseUndoesMarshal(n);
  }
}
