/** The key=value bodies the anchor signs, their parsers, and the prefixes that keep signed
    messages of different domains apart. */
module Canonical {
  import opened Prelude
  import opened Text

  datatype Kind = TextField | NumberField

  datatype Field = Field(key: string, kind: Kind)

  datatype Value = Words(text: string) | Number(number: int)

  datatype Error = WrongLineCount | MissingEquals(line: nat) | WrongKey(line: nat) | BadNumber(line: nat)

  /** The declared fields of a payload struct, in order. */
  predicate IsLayout(fields: seq<Field>) {
    fields != [] && forall i :: 0 <= i < |fields| ==> IsKey(fields[i].key)
  }

  predicate IsKey(key: string) {
    Free(key, '=') && Free(key, '\n')
  }

  /** A value a field can hold: newline-free text, or a 64-bit integer. */
  predicate Fits(v: Value, f: Field) {
    match v
    case Words(s) => f.kind == TextField && Free(s, '\n')
    case Number(n) => f.kind == NumberField && IsInt64(n)
  }

  predicate AllFit(values: seq<Value>, fields: seq<Field>) {
    |values| == |fields| && forall i :: 0 <= i < |fields| ==> Fits(values[i], fields[i])
  }

  function Show(v: Value): string {
    match v
    case Words(s) => s
    case Number(n) => FormatInt(n)
  }

  function Line(f: Field, v: Value): string {
    f.key + "=" + Show(v)
  }

  function Lines(fields: seq<Field>, values: seq<Value>): (lines: seq<string>)
    requires |values| == |fields|
    ensures |lines| == |fields|
  {
    seq(|fields|, i requires 0 <= i < |fields| => Line(fields[i], values[i]))
  }

  function Print(fields: seq<Field>, values: seq<Value>): string
    requires fields != [] && |values| == |fields|
  {
    JoinWith(Lines(fields, values), '\n')
  }

  /** The field walk: a newline before every field but the first. */
  method CanonicalBody(fields: seq<Field>, values: seq<Value>) returns (b: string)
    requires fields != [] && |values| == |fields|
    ensures b == Print(fields, values)
  {
    b := "";
    var lines := Lines(fields, values);
    for i := 0 to |fields|
      invariant if i == 0 then b == "" else b == JoinWith(lines[..i], '\n')
    {
      if i > 0 {
        b := b + "\n";
      }
      b := b + fields[i].key;
      b := b + "=";
      b := b + match values[i] case Words(s) => s case Number(n) => FormatInt(n);
      assert lines[..i + 1] == lines[..i] + [lines[i]];
      if i > 0 {
        JoinAppends(lines[..i], lines[i], '\n');
        Written(JoinWith(lines[..i], '\n'), "\n", fields[i].key, Show(values[i]));
      } else {
        assert b == lines[0];
      }
    }
    assert lines[..|fields|] == lines;
  }

  /** Four writes in a row are one. */
  lemma Written(b: string, newline: string, key: string, text: string)
    ensures b + newline + key + "=" + text == b + newline + (key + "=" + text)
  {
    Regroup(b + newline, key, "=");
    Regroup(b + newline, key + "=", text);
  }

  /** One line: the key up to the first equals sign, which must be the expected one, and a value. */
  function ParseLine(f: Field, line: string, i: nat): Result<Value, Error> {
    var n := IndexFrom(line, '=', 0);
    if n == |line| then Err(MissingEquals(i))
    else if line[..n] != f.key then Err(WrongKey(i))
    else
      var text := line[n + 1..];
      match f.kind
      case TextField => Ok(Words(text))
      case NumberField =>
        var number := ParseInt(text);
        if number.None? then Err(BadNumber(i)) else Ok(Number(number.value))
  }

  function ParseLines(fields: seq<Field>, lines: seq<string>): (r: seq<Result<Value, Error>>)
    requires |lines| == |fields|
    ensures |r| == |fields|
  {
    seq(|fields|, i requires 0 <= i < |fields| => ParseLine(fields[i], lines[i], i))
  }

  function Parse(fields: seq<Field>, body: string): Result<seq<Value>, Error> {
    var lines := SplitOn(body, '\n');
    if |lines| != |fields| then Err(WrongLineCount) else Collect(ParseLines(fields, lines))
  }

  method ParseField(f: Field, line: string, i: nat) returns (r: Result<Value, Error>)
    ensures r == ParseLine(f, line, i)
  {
    var n := IndexFrom(line, '=', 0);
    if n == |line| {
      return Err(MissingEquals(i));
    }
    var key, value := line[..n], line[n + 1..];
    if key != f.key {
      return Err(WrongKey(i));
    }
    if f.kind == NumberField {
      var number := ParseInt(value);
      return if number.None? then Err(BadNumber(i)) else Ok(Number(number.value));
    }
    return Ok(Words(value));
  }

  method ParseTaggedFields(fields: seq<Field>, body: string) returns (r: Result<seq<Value>, Error>)
    ensures r == Parse(fields, body)
  {
    var lines := SplitOn(body, '\n');
    if |lines| != |fields| {
      return Err(WrongLineCount);
    }
    ghost var results := ParseLines(fields, lines);
    var values := [];
    for i := 0 to |lines|
      invariant |values| == i && forall k :: 0 <= k < i ==> results[k] == Ok(values[k])
    {
      var value := ParseField(fields[i], lines[i], i);
      assert results[i] == value;
      if value.Err? {
        CollectFails(results, i);
        return Err(value.error);
      }
      values := values + [value.value];
    }
    CollectSucceeds(results, values);
    return Ok(values);
  }

  // ---------------------------------------------------------------------------
  // Parsing and printing
  // ---------------------------------------------------------------------------

  lemma LineParses(f: Field, v: Value, i: nat)
    requires Free(f.key, '=') && Fits(v, f)
    ensures ParseLine(f, Line(f, v), i) == Ok(v)
  {
    var line := Line(f, v);
    IndexIs(line, '=', |f.key|);
    assert line[..|f.key|] == f.key && line[|f.key| + 1..] == Show(v);
    if v.Number? {
      ParseUndoesFormat(v.number);
    }
  }

  lemma LineIsFree(f: Field, v: Value)
    requires Free(f.key, '\n') && Fits(v, f)
    ensures Free(Line(f, v), '\n')
  {
    if v.Number? {
      FormatIsFree(v.number, '\n');
    }
    FreeParts(f.key, "=", '\n');
    FreeParts(f.key + "=", Show(v), '\n');
  }

  lemma LinesAreSplit(fields: seq<Field>, values: seq<Value>)
    requires IsLayout(fields) && AllFit(values, fields)
    ensures SplitOn(Print(fields, values), '\n') == Lines(fields, values)
  {
    forall i | 0 <= i < |fields| ensures Free(Lines(fields, values)[i], '\n') {
      LineIsFree(fields[i], values[i]);
    }
    SplitUndoesJoin(Lines(fields, values), '\n');
  }

  /** Parsing inverts printing, for every layout and all values its fields can hold. */
  lemma ParseUndoesPrint(fields: seq<Field>, values: seq<Value>)
    requires IsLayout(fields) && AllFit(values, fields)
    ensures Parse(fields, Print(fields, values)) == Ok(values)
  {
    var lines := Lines(fields, values);
    LinesAreSplit(fields, values);
    forall i | 0 <= i < |fields| ensures ParseLines(fields, lines)[i] == Ok(values[i]) {
      LineParses(fields[i], values[i], i);
    }
    CollectSucceeds(ParseLines(fields, lines), values);
  }

  /** So printing is injective. */
  lemma PrintIsInjective(fields: seq<Field>, a: seq<Value>, b: seq<Value>)
    requires IsLayout(fields) && AllFit(a, fields) && AllFit(b, fields)
    ensures Print(fields, a) == Print(fields, b) <==> a == b
  {
    ParseUndoesPrint(fields, a);
    ParseUndoesPrint(fields, b);
  }

  /** Two layouts of the same length with different keys never print the same body. */
  lemma LayoutsDoNotMeet(f: seq<Field>, g: seq<Field>, a: seq<Value>, b: seq<Value>, i: nat)
    requires IsLayout(f) && IsLayout(g) && AllFit(a, f) && AllFit(b, g)
    requires i < |f| == |g| && f[i].key != g[i].key
    ensures Print(f, a) != Print(g, b)
  {
    LinesAreSplit(f, a);
    LinesAreSplit(g, b);
    KeyOfLine(f[i], a[i]);
    KeyOfLine(g[i], b[i]);
    assert Lines(f, a)[i] != Lines(g, b)[i];
  }

  lemma KeyOfLine(f: Field, v: Value)
    requires IsKey(f.key)
    ensures IndexFrom(Line(f, v), '=', 0) == |f.key| && Line(f, v)[..|f.key|] == f.key
  {
    IndexIs(Line(f, v), '=', |f.key|);
  }

  /** A number as the printer would write it. */
  predicate Plain(f: Field, line: string) {
    var n := IndexFrom(line, '=', 0);
    f.kind == NumberField && n < |line| && ParseInt(line[n + 1..]).Some? ==>
      line[n + 1..] == FormatInt(ParseInt(line[n + 1..]).value)
  }

  lemma SameTail(a: string, b: string, c: string)
    ensures a + b == a + c <==> b == c
  {
    assert (a + b)[|a|..] == b && (a + c)[|a|..] == c;
  }

  /** A parsed line prints as itself exactly when its number was written plainly; and what it
      prints as has no newline either. */
  lemma ParsedLine(f: Field, line: string, i: nat)
    requires ParseLine(f, line, i).Ok? && Free(line, '\n')
    ensures var printed := Line(f, ParseLine(f, line, i).value);
            (printed == line <==> Plain(f, line)) && Free(printed, '\n')
  {
    var n := IndexFrom(line, '=', 0);
    var v := ParseLine(f, line, i).value;
    assert line == f.key + "=" + line[n + 1..];
    SameTail(f.key + "=", Show(v), line[n + 1..]);
    FreeParts(f.key + "=", line[n + 1..], '\n');
    if v.Number? {
      FormatIsFree(v.number, '\n');
    }
    FreeParts(f.key + "=", Show(v), '\n');
  }

  /** Printing inverts parsing exactly when every number was written plainly. */
  lemma PrintUndoesParseIff(fields: seq<Field>, body: string)
    requires Parse(fields, body).Ok?
    ensures var values := Parse(fields, body).value;
            && |values| == |fields| > 0
            && (Print(fields, values) == body <==>
                  forall i :: 0 <= i < |fields| ==> Plain(fields[i], SplitOn(body, '\n')[i]))
  {
    var lines := SplitOn(body, '\n');
    var values := Parse(fields, body).value;
    CollectedCount(ParseLines(fields, lines));
    CollectSucceeds(ParseLines(fields, lines), values);
    JoinUndoesSplit(body, '\n');
    var printed := Lines(fields, values);
    forall i | 0 <= i < |fields|
      ensures (printed[i] == lines[i] <==> Plain(fields[i], lines[i])) && Free(printed[i], '\n')
    {
      assert ParseLines(fields, lines)[i] == ParseLine(fields[i], lines[i], i);
      ParsedLine(fields[i], lines[i], i);
    }
    SplitUndoesJoin(printed, '\n');
    if forall i :: 0 <= i < |fields| ==> printed[i] == lines[i] {
      assert printed == lines;
    }
  }

  /** A number with a sign or leading zeros is read, and printed back without them. */
  lemma SignedNumberIsNotPrintedBack(key: string)
    requires Free(key, '=') && Free(key, '\n')
    ensures var fields := [Field(key, NumberField)];
            && Parse(fields, key + "=+5") == Ok([Number(5)])
            && Print(fields, [Number(5)]) != key + "=+5"
  {
    var fields, body := [Field(key, NumberField)], key + "=+5";
    assert body == key + "=" + "+5";
    IndexIs(body, '=', |key|);
    assert body[..|key|] == key && body[|key| + 1..] == "+5";
    FreeParts(key, "=+5", '\n');
    assert "+5"[1..] == "5" && "5"[..0] == "";
    assert Natural("5") == Natural("") * 10 + 5;
    assert SplitOn(body, '\n') == [body];
    assert ParseLines(fields, [body])[0] == Ok(Number(5));
    CollectSucceeds(ParseLines(fields, [body]), [Number(5)]);
    assert Lines(fields, [Number(5)])[0] == key + "=" + "5";
    SameTail(key + "=", "5", "+5");
  }

  // ---------------------------------------------------------------------------
  // The payloads
  // ---------------------------------------------------------------------------

  const ATTESTATION := [
    Field("userId", TextField), Field("credentialId", TextField), Field("credentialPublicKeyHash", TextField),
    Field("wrappedKeyEpoch", NumberField), Field("createdAt", NumberField)]

  const BUNDLE := [
    Field("userId", TextField), Field("requestEncEcdhPubkey", TextField), Field("requestEncMlkemPubkey", TextField),
    Field("anchorEs384Crv", TextField), Field("anchorEs384Kty", TextField), Field("anchorEs384X", TextField),
    Field("anchorEs384Y", TextField), Field("anchorMldsa87PublicKey", TextField)]

  const BUNDLE_V1 := BUNDLE + [Field("wrappedKeyEpoch", NumberField)]

  const BUNDLE_V2 := BUNDLE + [Field("v", NumberField)]

  const PUBLICATION := [
    Field("userId", TextField), Field("algorithm", TextField), Field("keyLabel", TextField), Field("keyId", TextField),
    Field("wrappedKeyEpoch", NumberField), Field("createdAt", NumberField), Field("v", NumberField)]

  const JWK := [Field("crv", TextField), Field("kty", TextField), Field("x", TextField), Field("y", TextField)]

  lemma CommonKeys()
    ensures IsKey("userId") && IsKey("wrappedKeyEpoch") && IsKey("createdAt") && IsKey("v")
  {
  }

  lemma AttestationLayout()
    ensures IsLayout(ATTESTATION)
  {
    CommonKeys();
    assert IsKey("credentialId") && IsKey("credentialPublicKeyHash");
    forall i | 0 <= i < |ATTESTATION| ensures IsKey(ATTESTATION[i].key) {
    }
  }

  lemma BundleKeys()
    ensures IsKey("requestEncEcdhPubkey") && IsKey("requestEncMlkemPubkey") && IsKey("anchorMldsa87PublicKey")
  {
  }

  lemma AnchorKeys()
    ensures IsKey("anchorEs384Crv") && IsKey("anchorEs384Kty") && IsKey("anchorEs384X") && IsKey("anchorEs384Y")
  {
  }

  lemma BundleLayouts()
    ensures IsLayout(BUNDLE_V1) && IsLayout(BUNDLE_V2)
  {
    CommonKeys();
    BundleKeys();
    AnchorKeys();
    forall i | 0 <= i < |BUNDLE| ensures IsKey(BUNDLE[i].key) {
    }
  }

  lemma PublicationLayout()
    ensures IsLayout(PUBLICATION)
  {
    CommonKeys();
    assert IsKey("algorithm") && IsKey("keyLabel") && IsKey("keyId");
    forall i | 0 <= i < |PUBLICATION| ensures IsKey(PUBLICATION[i].key) {
    }
  }

  lemma JwkLayout()
    ensures IsLayout(JWK)
  {
  }

  /** A version 1 and a version 2 bundle never have the same body. */
  lemma BundleVersionsDiffer(a: seq<Value>, b: seq<Value>)
    requires AllFit(a, BUNDLE_V1) && AllFit(b, BUNDLE_V2)
    ensures Print(BUNDLE_V1, a) != Print(BUNDLE_V2, b)
  {
    BundleLayouts();
    LayoutsDoNotMeet(BUNDLE_V1, BUNDLE_V2, a, b, 8);
  }

  // ---------------------------------------------------------------------------
  // Domains
  // ---------------------------------------------------------------------------

  datatype Domain = CredAttest | PubkeyBundle | KeyPublication

  function Prefix(d: Domain): string {
    match d
    case CredAttest => "revaulter/v2/cred-attest\n"
    case PubkeyBundle => "revaulter/v2/pubkey-bundle\n"
    case KeyPublication => "revaulter/v2/signing-key-publication\n"
  }

  function Message(d: Domain, body: string): string {
    Prefix(d) + body
  }

  /** Messages are equal only within a domain and for equal bodies, whatever the bodies. */
  lemma DomainsAreSeparate(d: Domain, e: Domain, a: string, b: string)
    ensures Message(d, a) == Message(e, b) <==> d == e && a == b
  {
    if Message(d, a) == Message(e, b) {
      assert Message(d, a)[13] == Prefix(d)[13] && Message(e, b)[13] == Prefix(e)[13];
      SameTail(Prefix(d), a, b);
    }
  }

  /** What is signed determines the domain, the layout within it and every field: a signature
      over one message is a signature over no other payload. */
  lemma SignedMessageDeterminesPayload(d: Domain, e: Domain, f: seq<Field>, g: seq<Field>, a: seq<Value>, b: seq<Value>)
    requires InDomain(d, f) && InDomain(e, g) && AllFit(a, f) && AllFit(b, g)
    ensures Message(d, Print(f, a)) == Message(e, Print(g, b)) <==> d == e && f == g && a == b
  {
    AttestationLayout();
    BundleLayouts();
    PublicationLayout();
    DomainsAreSeparate(d, e, Print(f, a), Print(g, b));
    if d == e {
      if f == g {
        PrintIsInjective(f, a, b);
      } else if f == BUNDLE_V1 {
        BundleVersionsDiffer(a, b);
      } else {
        BundleVersionsDiffer(b, a);
      }
    }
  }

  /** Each of the four layouts is signed in one domain only. */
  lemma LayoutsHaveOneDomain(d: Domain)
    ensures InDomain(d, ATTESTATION) <==> d == CredAttest
    ensures InDomain(d, BUNDLE_V1) <==> d == PubkeyBundle
    ensures InDomain(d, BUNDLE_V2) <==> d == PubkeyBundle
    ensures InDomain(d, PUBLICATION) <==> d == KeyPublication
  {
    assert |ATTESTATION| == 5 && |BUNDLE_V1| == 9 && |BUNDLE_V2| == 9 && |PUBLICATION| == 7;
  }

  predicate InDomain(d: Domain, f: seq<Field>) {
    match d
    case CredAttest => f == ATTESTATION
    case PubkeyBundle => f == BUNDLE_V1 || f == BUNDLE_V2
    case KeyPublication => f == PUBLICATION
  }

  // ---------------------------------------------------------------------------
  // The hand-written bodies
  // ---------------------------------------------------------------------------

  /** `[...].join('\n')`. */
  function JoinLines(lines: seq<string>): string
    requires lines != []
  {
    JoinWith(lines, '\n')
  }

  /** `${key}=${text}`. */
  function Template(key: string, text: string): string {
    key + "=" + text
  }

  /** The browser's attestation body: each line spelled out. */
  function BrowserAttestation(userId: string, credentialId: string, hash: string, epoch: int, createdAt: int): string {
    JoinLines([
      Template("userId", userId), Template("credentialId", credentialId), Template("credentialPublicKeyHash", hash),
      Template("wrappedKeyEpoch", FormatInt(epoch)), Template("createdAt", FormatInt(createdAt))])
  }

  function BrowserBundle(
      userId: string, ecdh: string, mlkem: string, crv: string, kty: string, x: string, y: string, mldsa: string,
      v: int)
    : string
  {
    JoinLines([
      Template("userId", userId), Template("requestEncEcdhPubkey", ecdh), Template("requestEncMlkemPubkey", mlkem),
      Template("anchorEs384Crv", crv),
      Template("anchorEs384Kty", kty), Template("anchorEs384X", x), Template("anchorEs384Y", y),
      Template("anchorMldsa87PublicKey", mldsa),
      Template("v", FormatInt(v))])
  }

  function BrowserPublication(
      userId: string, algorithm: string, keyLabel: string, keyId: string, epoch: int, createdAt: int, v: int): string
  {
    JoinLines([
      Template("userId", userId), Template("algorithm", algorithm), Template("keyLabel", keyLabel),
      Template("keyId", keyId),
      Template("wrappedKeyEpoch", FormatInt(epoch)), Template("createdAt", FormatInt(createdAt)),
      Template("v", FormatInt(v))])
  }

  lemma BrowserAttestationIsTheServers(userId: string, credentialId: string, hash: string, epoch: int, createdAt: int)
    ensures BrowserAttestation(userId, credentialId, hash, epoch, createdAt) ==
              Print(ATTESTATION, [Words(userId), Words(credentialId), Words(hash), Number(epoch), Number(createdAt)])
  {
    var values := [Words(userId), Words(credentialId), Words(hash), Number(epoch), Number(createdAt)];
    assert Lines(ATTESTATION, values) == [
      Template("userId", userId), Template("credentialId", credentialId), Template("credentialPublicKeyHash", hash),
      Template("wrappedKeyEpoch", FormatInt(epoch)), Template("createdAt", FormatInt(createdAt))];
  }

  lemma BrowserBundleIsTheServers(
      userId: string, ecdh: string, mlkem: string, crv: string, kty: string, x: string, y: string, mldsa: string,
      v: int)
    ensures BrowserBundle(userId, ecdh, mlkem, crv, kty, x, y, mldsa, v) ==
              Print(BUNDLE_V2, [Words(userId), Words(ecdh), Words(mlkem), Words(crv), Words(kty), Words(x), Words(y),
                                Words(mldsa), Number(v)])
  {
    var values := [
      Words(userId), Words(ecdh), Words(mlkem), Words(crv), Words(kty), Words(x), Words(y), Words(mldsa), Number(v)];
    assert Lines(BUNDLE_V2, values) == [
      Template("userId", userId), Template("requestEncEcdhPubkey", ecdh), Template("requestEncMlkemPubkey", mlkem),
      Template("anchorEs384Crv", crv), Template("anchorEs384Kty", kty), Template("anchorEs384X", x),
      Template("anchorEs384Y", y),
      Template("anchorMldsa87PublicKey", mldsa), Template("v", FormatInt(v))];
  }

  lemma BrowserPublicationIsTheServers(
      userId: string, algorithm: string, keyLabel: string, keyId: string, epoch: int, createdAt: int, v: int)
    ensures BrowserPublication(userId, algorithm, keyLabel, keyId, epoch, createdAt, v) ==
              Print(PUBLICATION, [Words(userId), Words(algorithm), Words(keyLabel), Words(keyId), Number(epoch),
                                  Number(createdAt), Number(v)])
  {
    var values := [
      Words(userId), Words(algorithm), Words(keyLabel), Words(keyId), Number(epoch), Number(createdAt), Number(v)];
    assert Lines(PUBLICATION, values) == [
      Template("userId", userId), Template("algorithm", algorithm), Template("keyLabel", keyLabel),
      Template("keyId", keyId),
      Template("wrappedKeyEpoch", FormatInt(epoch)), Template("createdAt", FormatInt(createdAt)),
      Template("v", FormatInt(v))];
  }

  /** The concatenation of the ES384 key's canonical body. */
  function JwkBody(crv: string, kty: string, x: string, y: string): string {
    "crv=" + crv + "\nkty=" + kty + "\nx=" + x + "\ny=" + y
  }

  lemma OneMoreLine(parts: seq<string>, before: string, start: string, key: string, text: string)
    requires parts != [] && before == JoinWith(parts, '\n') && start == "\n" + key + "="
    ensures before + start + text == JoinWith(parts + [Template(key, text)], '\n')
  {
    JoinAppends(parts, Template(key, text), '\n');
    Regroup(before, "\n", key + "=");
    Regroup("\n", key, "=");
    Regroup(before + "\n", key + "=", text);
  }

  /** It is the walk over its four fields, so it parses back too. */
  lemma JwkBodyParses(crv: string, kty: string, x: string, y: string)
    requires Free(crv, '\n') && Free(kty, '\n') && Free(x, '\n') && Free(y, '\n')
    ensures Parse(JWK, JwkBody(crv, kty, x, y)) == Ok([Words(crv), Words(kty), Words(x), Words(y)])
  {
    var values := [Words(crv), Words(kty), Words(x), Words(y)];
    var one := [Template("crv", crv)];
    var two := one + [Template("kty", kty)];
    var three := two + [Template("x", x)];
    assert "crv=" + crv == JoinWith(one, '\n');
    assert "\nkty=" == "\n" + "kty" + "=" && "\nx=" == "\n" + "x" + "=" && "\ny=" == "\n" + "y" + "=";
    OneMoreLine(one, "crv=" + crv, "\nkty=", "kty", kty);
    OneMoreLine(two, "crv=" + crv + "\nkty=" + kty, "\nx=", "x", x);
    OneMoreLine(three, "crv=" + crv + "\nkty=" + kty + "\nx=" + x, "\ny=", "y", y);
    assert Lines(JWK, values) == three + [Template("y", y)];
    JwkLayout();
    ParseUndoesPrint(JWK, values);
  }
}
