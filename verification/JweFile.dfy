/** An encrypted file: a JWE in compact serialization (section 7.1 of RFC 7516) whose content key
    is wrapped elsewhere and described in the protected header. */
module JweFile {
  import opened Base64Url
  import Codes
  import opened Prelude
  import opened Text

  datatype KeyInfo = KeyInfo(
    version: int, server: string, keyLabel: string, algorithm: string,
    wrappedKey: string, wrappedKeyNonce: string, wrappedKeyTag: string)

  datatype Header = Header(alg: string, enc: string, revaulter: KeyInfo)

  datatype Error =
    | NotCompact
    | BadHeaderEncoding
    | BadHeader
    | UnsupportedAlg
    | UnsupportedEnc
    | UnsupportedVersion
    | NoWrappedKey
    | KeyNotEmpty
    | BadEncoding
    | BadKeySize
    | BadIv
    | NotAuthentic

  const ALG := "dir"
  const ENC := "A256GCM"
  const VERSION := 1
  const NONCE := 12
  const OVERHEAD := 16

  /** The JSON codec of headers and the authenticated cipher, of which only this is known: parsing
      inverts printing, and opening inverts sealing with the same associated data. */
  datatype Library = Library(
    toJson: Header -> seq<Byte>,
    fromJson: seq<Byte> -> Option<Header>,
    seal: (seq<Byte>, seq<Byte>, seq<Byte>, string) -> seq<Byte>,
    unseal: (seq<Byte>, seq<Byte>, seq<Byte>, string) -> Option<seq<Byte>>)
  {
    ghost predicate Lawful() {
      HeadersComeBack() && SealsAreLong() && SealsOpen()
    }

    ghost predicate HeadersComeBack() {
      forall h :: fromJson(toJson(h)) == Some(h)
    }

    ghost predicate SealsAreLong() {
      forall key, iv, plain, aad :: |seal(key, iv, plain, aad)| >= OVERHEAD
    }

    ghost predicate SealsOpen() {
      forall key, iv, plain, aad :: unseal(key, iv, seal(key, iv, plain, aad), aad) == Some(plain)
    }
  }

  predicate IsSpace(c: char) {
    || c == ' ' || '\t' <= c <= '\r' || c == '\U{85}' || c == '\U{A0}' || c == '\U{1680}'
    || '\U{2000}' <= c <= '\U{200A}' || c == '\U{2028}' || c == '\U{2029}' || c == '\U{202F}' || c == '\U{205F}'
    || c == '\U{3000}'
  }

  function TrimLeft(s: string): string {
    if s != "" && IsSpace(s[0]) then TrimLeft(s[1..]) else s
  }

  function TrimRight(s: string): string {
    if s != "" && IsSpace(s[|s| - 1]) then TrimRight(s[..|s| - 1]) else s
  }

  function Segments(data: string): seq<string> {
    SplitOn(TrimRight(TrimLeft(data)), '.')
  }

  /** What `parseHeader` requires of a header. */
  function CheckHeader(h: Header): Result<Header, Error> {
    if h.alg != ALG then Err(UnsupportedAlg)
    else if h.enc != ENC then Err(UnsupportedEnc)
    else if h.revaulter.version != VERSION then Err(UnsupportedVersion)
    else if h.revaulter.keyLabel == "" || h.revaulter.algorithm == "" || h.revaulter.wrappedKey == "" then
      Err(NoWrappedKey)
    else Ok(h)
  }

  function ParseHeader(data: string, lib: Library): Result<Header, Error> {
    var segments := Segments(data);
    if |segments| != 5 then Err(NotCompact)
    else
      var json := Decode(segments[0]);
      if json.None? then Err(BadHeaderEncoding)
      else
        var header := lib.fromJson(json.value);
        if header.None? then Err(BadHeader) else CheckHeader(header.value)
  }

  predicate KeySize(key: seq<Byte>) {
    |key| == 16 || |key| == 24 || |key| == 32
  }

  function Decrypt(data: string, key: seq<Byte>, lib: Library): Result<seq<Byte>, Error> {
    var segments := Segments(data);
    if |segments| != 5 then Err(NotCompact)
    else if segments[1] != "" then Err(KeyNotEmpty)
    else
      var iv, ciphertext, tag := Decode(segments[2]), Decode(segments[3]), Decode(segments[4]);
      if iv.None? || ciphertext.None? || tag.None? then Err(BadEncoding)
      else if !KeySize(key) then Err(BadKeySize)
      else if |iv.value| != NONCE then Err(BadIv)
      else
        var plain := lib.unseal(key, iv.value, ciphertext.value + tag.value, segments[0]);
        if plain.None? then Err(NotAuthentic) else Ok(plain.value)
  }

  /** The five segments of a file, sealed with the header's own encoding as associated data. */
  function Parts(info: KeyInfo, key: seq<Byte>, iv: seq<Byte>, plain: seq<Byte>, lib: Library): (r: seq<string>)
    requires |lib.seal(key, iv, plain, Encode(lib.toJson(Header(ALG, ENC, info))))| >= OVERHEAD
    ensures |r| == 5
  {
    var header := Encode(lib.toJson(Header(ALG, ENC, info)));
    var combined := lib.seal(key, iv, plain, header);
    var n := |combined| - OVERHEAD;
    [header, "", Encode(iv), Encode(combined[..n]), Encode(combined[n..])]
  }

  class EncryptedFile {
    const contentKey: seq<Byte>
    const info: KeyInfo
    const lib: Library

    constructor (contentKey: seq<Byte>, info: KeyInfo, lib: Library)
      ensures this.contentKey == contentKey && this.info == info && this.lib == lib
    {
      this.contentKey, this.info, this.lib := contentKey, info, lib;
    }

    /** Fills a buffer with the segments, their dots and a final newline. */
    method Serialize(iv: seq<Byte>, plain: seq<Byte>) returns (r: Result<string, Error>)
      requires lib.Lawful()
      ensures r == if KeySize(contentKey) then Ok(JoinWith(Parts(info, contentKey, iv, plain, lib), '.') + "\n")
                   else Err(BadKeySize)
    {
      var header := Encode(lib.toJson(Header(ALG, ENC, info)));
      if !KeySize(contentKey) {
        return Err(BadKeySize);
      }
      var combined := lib.seal(contentKey, iv, plain, header);
      var ciphertext, tag := combined[..|combined| - OVERHEAD], combined[|combined| - OVERHEAD..];
      var buf := header;
      buf := buf + "..";
      buf := buf + Encode(iv);
      buf := buf + ".";
      buf := buf + Encode(ciphertext);
      buf := buf + ".";
      buf := buf + Encode(tag);
      buf := buf + "\n";
      FiveJoined(header, Encode(iv), Encode(ciphertext), Encode(tag));
      return Ok(buf);
    }
  }

  lemma FiveJoined(a: string, c: string, d: string, e: string)
    ensures JoinWith([a, "", c, d, e], '.') == a + ".." + c + "." + d + "." + e
  {
    JoinAppends([a, "", c, d], e, '.');
    assert [a, "", c, d] + [e] == [a, "", c, d, e];
    JoinAppends([a, "", c], d, '.');
    assert [a, "", c] + [d] == [a, "", c, d];
    JoinAppends([a, ""], c, '.');
    assert [a, ""] + [c] == [a, "", c];
    assert [a, ""][1..] == [""];
  }

  lemma SymbolsAreClean(s: string)
    requires AllSymbols(s)
    ensures Free(s, '.') && forall k :: 0 <= k < |s| ==> !IsSpace(s[k])
  {
    forall k | 0 <= k < |s| ensures s[k] != '.' && !IsSpace(s[k]) {
      assert IsSymbol(s[k]);
    }
  }

  /** Trimming a text without spaces and with one final newline takes off the newline. */
  lemma TrimTakesNewline(s: string)
    requires s != "" && forall k :: 0 <= k < |s| ==> !IsSpace(s[k])
    ensures TrimRight(TrimLeft(s + "\n")) == s
  {
    assert (s + "\n")[0] == s[0];
    assert (s + "\n")[..|s|] == s;
  }

  lemma {:induction false} JoinHasNoSpace(parts: seq<string>)
    requires parts != [] && forall i :: 0 <= i < |parts| ==> AllSymbols(parts[i])
    ensures forall k :: 0 <= k < |JoinWith(parts, '.')| ==> !IsSpace(JoinWith(parts, '.')[k])
    decreases |parts|
  {
    SymbolsAreClean(parts[0]);
    if |parts| > 1 {
      JoinHasNoSpace(parts[1..]);
    }
  }

  /** A serialized file has exactly the segments it was made of. */
  lemma SegmentsComeBack(parts: seq<string>)
    requires |parts| > 1 && forall i :: 0 <= i < |parts| ==> AllSymbols(parts[i])
    ensures Segments(JoinWith(parts, '.') + "\n") == parts
  {
    forall i | 0 <= i < |parts| ensures Free(parts[i], '.') {
      SymbolsAreClean(parts[i]);
    }
    JoinHasNoSpace(parts);
    TrimTakesNewline(JoinWith(parts, '.'));
    SplitUndoesJoin(parts, '.');
  }

  lemma {:induction false} TrimsLeft(pad: string, s: string)
    requires forall k :: 0 <= k < |pad| ==> IsSpace(pad[k])
    ensures TrimLeft(pad + s) == TrimLeft(s)
    decreases |pad|
  {
    if pad == "" {
      assert pad + s == s;
    } else {
      assert (pad + s)[0] == pad[0] && (pad + s)[1..] == pad[1..] + s;
      TrimsLeft(pad[1..], s);
    }
  }

  lemma {:induction false} TrimsRight(s: string, pad: string)
    requires forall k :: 0 <= k < |pad| ==> IsSpace(pad[k])
    ensures TrimRight(s + pad) == TrimRight(s)
    decreases |pad|
  {
    if pad == "" {
      assert s + pad == s;
    } else {
      var n := |pad| - 1;
      assert (s + pad)[|s + pad| - 1] == pad[n] && (s + pad)[..|s + pad| - 1] == s + pad[..n];
      TrimsRight(s, pad[..n]);
    }
  }

  /** White space around a serialized file makes no difference. */
  lemma PaddingIsIgnored(before: string, parts: seq<string>, after: string)
    requires |parts| > 1 && forall i :: 0 <= i < |parts| ==> AllSymbols(parts[i])
    requires forall k :: 0 <= k < |before| ==> IsSpace(before[k])
    requires forall k :: 0 <= k < |after| ==> IsSpace(after[k])
    ensures Segments(before + (JoinWith(parts, '.') + after)) == parts
  {
    var s := JoinWith(parts, '.');
    forall i | 0 <= i < |parts| ensures Free(parts[i], '.') {
      SymbolsAreClean(parts[i]);
    }
    JoinHasNoSpace(parts);
    JoinIsLong(parts);
    TrimsLeft(before, s + after);
    assert (s + after)[0] == s[0];
    TrimsRight(s, after);
    SplitUndoesJoin(parts, '.');
  }

  lemma JoinIsLong(parts: seq<string>)
    requires |parts| > 1
    ensures JoinWith(parts, '.') != ""
  {
  }

  /** For every plaintext, key information, nonce and key of a valid size, decrypting inverts
      serializing, and the header comes back whenever it would be accepted at all. */
  lemma DecryptUndoesSerialize(info: KeyInfo, key: seq<Byte>, iv: seq<Byte>, plain: seq<Byte>, lib: Library)
    requires lib.Lawful() && |key| in {16, 24, 32} && |iv| == 12
    ensures var data := JoinWith(Parts(info, key, iv, plain, lib), '.') + "\n";
            && Decrypt(data, key, lib) == Ok(plain)
            && ParseHeader(data, lib) == CheckHeader(Header(ALG, ENC, info))
  {
    var header := lib.toJson(Header(ALG, ENC, info));
    var combined := lib.seal(key, iv, plain, Encode(header));
    var n := |combined| - OVERHEAD;
    var parts := Parts(info, key, iv, plain, lib);
    EncodedIsSymbols(header);
    EncodedIsSymbols(iv);
    EncodedIsSymbols(combined[..n]);
    EncodedIsSymbols(combined[n..]);
    SegmentsComeBack(parts);
    DecodeUndoesEncode(header);
    DecodeUndoesEncode(iv);
    DecodeUndoesEncode(combined[..n]);
    DecodeUndoesEncode(combined[n..]);
    assert combined[..n] + combined[n..] == combined;
  }

  /** The header of a file the program wrote is read back exactly when its key information has
      version 1 and names a key label, an algorithm and a wrapped key; each other case has its error. */
  lemma WrittenHeaderIsReadIff(info: KeyInfo, key: seq<Byte>, iv: seq<Byte>, plain: seq<Byte>, lib: Library)
    requires lib.Lawful() && KeySize(key) && |iv| == NONCE
    ensures var data := JoinWith(Parts(info, key, iv, plain, lib), '.') + "\n";
            ParseHeader(data, lib) ==
              if info.version != 1 then Err(UnsupportedVersion)
              else if info.keyLabel == "" then Err(NoWrappedKey)
              else if info.algorithm == "" then Err(NoWrappedKey)
              else if info.wrappedKey == "" then Err(NoWrappedKey)
              else Ok(Header("dir", "A256GCM", info))
  {
    DecryptUndoesSerialize(info, key, iv, plain, lib);
  }

  /** Whoever wrote it, an accepted header is what the first of five segments decodes to, and has
      these values. */
  lemma AcceptedHeaderIsChecked(data: string, lib: Library)
    requires ParseHeader(data, lib).Ok?
    ensures var h := ParseHeader(data, lib).value;
            && h.alg == "dir" && h.enc == "A256GCM" && h.revaulter.version == 1
            && h.revaulter.keyLabel != "" && h.revaulter.algorithm != "" && h.revaulter.wrappedKey != ""
            && |Segments(data)| == 5
            && exists json :: Decode(Segments(data)[0]) == Some(json) && lib.fromJson(json) == Some(h)
  {
  }

  /** Whoever wrote it, a file is opened only with a key of a valid size, and only if it has five
      segments, no encrypted key and a nonce of twelve bytes; the plaintext is what the cipher
      authenticates under the first segment as it stands. */
  lemma OpenedFileIsAuthentic(data: string, key: seq<Byte>, lib: Library)
    requires Decrypt(data, key, lib).Ok?
    ensures |key| in {16, 24, 32} && |Segments(data)| == 5 && Segments(data)[1] == ""
    ensures exists iv, sealed ::
              && |iv| == 12 && Decode(Segments(data)[2]) == Some(iv)
              && Split(Segments(data), sealed)
              && lib.unseal(key, iv, sealed, Segments(data)[0]) == Some(Decrypt(data, key, lib).value)
  {
    var parts := Segments(data);
    var iv, sealed := Decode(parts[2]).value, Decode(parts[3]).value + Decode(parts[4]).value;
    assert Split(parts, sealed);
  }

  /** The ciphertext and the tag are the fourth and the fifth segment. */
  predicate Split(segments: seq<string>, sealed: seq<Byte>)
    requires |segments| == 5
  {
    && Decode(segments[3]).Some? && Decode(segments[4]).Some?
    && sealed == Decode(segments[3]).value + Decode(segments[4]).value
  }

  // ---------------------------------------------------------------------------
  // The laws can be met
  // ---------------------------------------------------------------------------

  function HeaderBytes(h: Header): seq<Byte> {
    var info := h.revaulter;
    Codes.AsBytes(Codes.Integer(info.version) + Codes.Words([h.alg, h.enc, info.server, info.keyLabel,
      info.algorithm, info.wrappedKey, info.wrappedKeyNonce, info.wrappedKeyTag]))
  }

  ghost predicate Writes(h: Header, bytes: seq<Byte>) {
    HeaderBytes(h) == bytes
  }

  ghost function ParsedHeader(bytes: seq<Byte>): Option<Header> {
    if exists h :: Writes(h, bytes) then (var h :| Writes(h, bytes); Some(h)) else None
  }

  lemma HeaderBytesAreInjective(g: Header, h: Header)
    requires HeaderBytes(g) == HeaderBytes(h)
    ensures g == h
  {
    var i, j := g.revaulter, h.revaulter;
    var a := [g.alg, g.enc, i.server, i.keyLabel, i.algorithm, i.wrappedKey, i.wrappedKeyNonce, i.wrappedKeyTag];
    var b := [h.alg, h.enc, j.server, j.keyLabel, j.algorithm, j.wrappedKey, j.wrappedKeyNonce, j.wrappedKeyTag];
    Codes.BytesAreInjective(Codes.Integer(i.version) + Codes.Words(a), Codes.Integer(j.version) + Codes.Words(b));
    Codes.IntegerIsPrefixFree(i.version, j.version, Codes.Words(a), Codes.Words(b));
    assert Codes.Words(a) + [] == Codes.Words(a) && Codes.Words(b) + [] == Codes.Words(b);
    Codes.WordsArePrefixFree(a, b, [], []);
    assert a[0] == b[0] && a[1] == b[1] && a[2] == b[2] && a[3] == b[3];
    assert a[4] == b[4] && a[5] == b[5] && a[6] == b[6] && a[7] == b[7];
  }

  function Tagged(plain: seq<Byte>): seq<Byte> {
    plain + seq(OVERHEAD, _ => 0)
  }

  function Untagged(sealed: seq<Byte>): Option<seq<Byte>> {
    if |sealed| < OVERHEAD then None else Some(sealed[..|sealed| - OVERHEAD])
  }

  /** There is a library that obeys the laws. */
  lemma LawfulLibraryExists()
    ensures exists lib: Library :: lib.Lawful()
  {
    var lib := Library((h: Header) => HeaderBytes(h), bytes => ParsedHeader(bytes),
      (key, iv, plain, aad) => Tagged(plain), (key, iv, sealed, aad) => Untagged(sealed));
    assert lib.HeadersComeBack() by {
      forall h ensures lib.fromJson(lib.toJson(h)) == Some(h) {
        assert Writes(h, HeaderBytes(h));
        var g := ParsedHeader(HeaderBytes(h)).value;
        assert Writes(g, HeaderBytes(h));
        HeaderBytesAreInjective(g, h);
      }
    }
    assert lib.SealsAreLong();
    assert lib.SealsOpen() by {
      forall key, iv, plain, aad ensures lib.unseal(key, iv, lib.seal(key, iv, plain, aad), aad) == Some(plain) {
        assert Tagged(plain)[..|plain|] == plain;
      }
    }
    assert lib.Lawful();
  }
}
