/**
 * The Standard Webhooks signature profile of standard/standard.go: signing, parsing and verifying headers,
 * and the textual form of keys. HMAC-SHA256 and Ed25519 verification are arbitrary functions of their inputs.
 */
module Standard {
  import opened Common
  import opened GoTime
  import opened Text
  import opened Base64

  type Digest = d: Bytes | |d| == 32 witness seq(32, _ => 0)
  type Mac = (Bytes, Bytes) -> Digest
  type SignatureCheck = (Bytes, Bytes, Bytes) -> bool
  type Headers = map<string, seq<Bytes>>

  const HEADER_ID := "Webhook-Id"
  const HEADER_TIMESTAMP := "Webhook-Timestamp"
  const HEADER_SIGNATURE := "Webhook-Signature"

  const HMAC_SIGNATURE_ID: Bytes := [0x76, 0x31]           // v1
  const ED25519_SIGNATURE_ID: Bytes := [0x76, 0x31, 0x61]  // v1a
  const HMAC_SECRET_PREFIX: Bytes := [0x77, 0x68, 0x73, 0x65, 0x63, 0x5F] // whsec_

  // ----- Go's wall clock -----

  /** A time.Time: seconds and nanoseconds since January 1 of year 1. */
  datatype Instant = Instant(seconds: int64, nanos: nat) {
    predicate IsZero() { seconds == 0 && nanos == 0 }
    function Nanos(): Time { seconds * SECOND + nanos }
    function Unix(): int64 { Wrap64(seconds - UNIX_EPOCH) }
    function WholeSeconds(): Instant { Instant(seconds, 0) }
  }

  const UNIX_EPOCH: int := 62135596800

  function UnixTime(seconds: int64): Instant {
    Instant(Wrap64(seconds + UNIX_EPOCH), 0)
  }

  lemma UnixTimeOfUnix(t: Instant)
    ensures UnixTime(t.Unix()) == t.WholeSeconds()
  {
  }

  function OutsideTolerance(receivedAt: Instant, timestamp: Instant, tolerance: Duration): bool {
    if timestamp.Nanos() > receivedAt.Nanos() then Sub(timestamp.Nanos(), receivedAt.Nanos()) > tolerance
    else Sub(receivedAt.Nanos(), timestamp.Nanos()) > tolerance
  }

  predicate Beyond(receivedAt: Instant, timestamp: Instant, tolerance: int) {
    !(-tolerance <= timestamp.Nanos() - receivedAt.Nanos() <= tolerance)
  }

  /**
   * The check compares the true distance of the two instants, except that a tolerance equal to the largest Duration
   * lets every distance pass: the clamped subtraction never exceeds it.
   */
  lemma ToleranceIsDistance(receivedAt: Instant, timestamp: Instant, tolerance: Duration)
    requires tolerance >= 0
    ensures (OutsideTolerance(receivedAt, timestamp, tolerance) <==> Beyond(receivedAt, timestamp, tolerance))
       <==> (tolerance < MAX_INT64 || !Beyond(receivedAt, timestamp, tolerance))
    ensures !OutsideTolerance(receivedAt, timestamp, MAX_INT64)
  {
  }

  /** Such a distance exists: a timestamp of the year 1 against one of the year 293. */
  lemma ToleranceExample()
    ensures
      var t, u := Instant(0, 1), Instant(9_223_372_037, 0);
      Beyond(u, t, MAX_INT64) && !OutsideTolerance(u, t, MAX_INT64)
  {
  }

  // ----- message ids and signed content -----

  predicate ValidMessageId(id: Bytes) {
    && id != [] && |id| <= 200
    && TrimSpace(id) == id && DOT !in id
    && forall i | 0 <= i < |id| :: id[i] >= 0x20 && id[i] != DEL
  }

  function SignedContent(id: Bytes, timestamp: Bytes, body: Bytes): Bytes {
    id + [DOT] + timestamp + [DOT] + body
  }

  /** The bytes that are signed determine the id, the timestamp text and the body. */
  lemma SignedContentIsUnambiguous(
    id: Bytes, timestamp: Bytes, body: Bytes, id': Bytes, timestamp': Bytes, body': Bytes)
    requires ValidMessageId(id) && ValidMessageId(id')
    requires ParseInt(timestamp).Some? && ParseInt(timestamp').Some?
    requires SignedContent(id, timestamp, body) == SignedContent(id', timestamp', body')
    ensures id == id' && timestamp == timestamp' && body == body'
  {
    ParseIntHasNoDot(timestamp);
    ParseIntHasNoDot(timestamp');
    var rest, rest' := timestamp + [DOT] + body, timestamp' + [DOT] + body';
    assert SignedContent(id, timestamp, body) == id + [DOT] + rest;
    assert SignedContent(id', timestamp', body') == id' + [DOT] + rest';
    CutOfPair(id, DOT, rest);
    CutOfPair(id', DOT, rest');
    CutOfPair(timestamp, DOT, body);
    CutOfPair(timestamp', DOT, body');
  }

  method BuildSignedContent(id: Bytes, timestamp: Bytes, body: Bytes) returns (content: Bytes)
    ensures content == SignedContent(id, timestamp, body)
  {
    content := [];
    content := content + id;
    content := content + [DOT];
    content := content + timestamp;
    content := content + [DOT];
    content := content + body;
  }

  /** The signed bytes in order: the id up to the first dot, the timestamp up to the second, then the body. */
  lemma SignedContentInOrder(id: Bytes, timestamp: Bytes, body: Bytes)
    requires ValidMessageId(id) && ParseInt(timestamp).Some?
    ensures
      var content := SignedContent(id, timestamp, body);
      && Cut(content, DOT).Some? && Cut(content, DOT).value.0 == id
      && Cut(Cut(content, DOT).value.1, DOT) == Some((timestamp, body))
  {
    ParseIntHasNoDot(timestamp);
    var rest := timestamp + [DOT] + body;
    assert SignedContent(id, timestamp, body) == id + [DOT] + rest;
    CutOfPair(id, DOT, rest);
    CutOfPair(timestamp, DOT, body);
  }

  /** A valid id has 1 to 200 bytes, fits into one header line as it is, and holds none of the separators. */
  lemma ValidIdsAreHeaderSafe(id: Bytes)
    requires ValidMessageId(id)
    ensures 1 <= |id| <= 200 && CR !in id && LF !in id && DOT !in id && DEL !in id && 0 !in id
    ensures id[0] != SPACE && id[|id| - 1] != SPACE
  {
    assert FirstText(id, 0) == 0;
    if id[|id| - 1] == SPACE {
      assert LastText(id, 0, |id|) < |id|;
      assert false;
    }
  }

  // ----- signature lists -----

  datatype Signature = Signature(version: Bytes, value: Bytes)

  function FieldOf(s: Signature): Bytes {
    s.version + [COMMA] + Encode(StdEncoding, s.value)
  }

  function FieldsOf(list: seq<Signature>): seq<Bytes> {
    seq(|list|, i requires 0 <= i < |list| => FieldOf(list[i]))
  }

  function ParseField(field: Bytes): Option<Signature> {
    match Cut(field, COMMA)
    case None => None
    case Some((version, encoded)) =>
      if encoded == [] || |encoded| > 256 then None
      else
        match Decode(StdEncoding, encoded)
        case None => None
        case Some(value) => Some(Signature(version, value))
  }

  /** All fields parsed, or None when one of them does not parse. */
  function ParseAll(fields: seq<Bytes>): Option<seq<Signature>> {
    if fields == [] then Some([])
    else
      match (ParseAll(fields[..|fields| - 1]), ParseField(fields[|fields| - 1]))
      case (Some(list), Some(s)) => Some(list + [s])
      case _ => None
  }

  function ParseList(value: Bytes): Result<seq<Signature>> {
    var fields := Fields(value);
    if |fields| == 0 || |fields| > 32 then Err(InvalidSignature)
    else
      match ParseAll(fields)
      case Some(list) => Ok(list)
      case None => Err(InvalidSignature)
  }

  lemma {:induction false} ParseAllOfPrefix(fields: seq<Bytes>, k: nat)
    requires k <= |fields| && ParseAll(fields[..k]).None?
    ensures ParseAll(fields).None?
    decreases |fields|
  {
    if k < |fields| {
      assert fields[..|fields| - 1][..k] == fields[..k];
      ParseAllOfPrefix(fields[..|fields| - 1], k);
    } else {
      assert fields[..k] == fields;
    }
  }

  lemma ParseAllOfNone(fields: seq<Bytes>)
    requires fields == []
    ensures ParseAll(fields) == Some([])
  {
  }

  lemma ParseAllStep(fields: seq<Bytes>, i: nat, parsed: seq<Signature>)
    requires i < |fields| && ParseAll(fields[..i]) == Some(parsed)
    ensures ParseField(fields[i]).Some? ==> ParseAll(fields[..i + 1]) == Some(parsed + [ParseField(fields[i]).value])
    ensures ParseField(fields[i]).None? ==> ParseAll(fields).None?
  {
    hide ParseField;
    assert fields[..i + 1][..i] == fields[..i];
    if ParseField(fields[i]).None? {
      ParseAllOfPrefix(fields, i + 1);
    }
  }

  method ParseSignatures(value: Bytes) returns (r: Result<seq<Signature>>)
    ensures r == ParseList(value)
  {
    hide ParseAll, Fields, Decode, Cut;
    var fields := Fields(value);
    if |fields| == 0 || |fields| > 32 {
      return Err(InvalidSignature);
    }
    var parsed: seq<Signature> := [];
    ParseAllOfNone(fields[..0]);
    for i := 0 to |fields|
      invariant ParseAll(fields[..i]) == Some(parsed)
    {
      ParseAllStep(fields, i, parsed);
      var field := fields[i];
      var cut := Cut(field, COMMA);
      if cut.None? || cut.value.1 == [] || |cut.value.1| > 256 {
        return Err(InvalidSignature);
      }
      var decoded := Decode(StdEncoding, cut.value.1);
      if decoded.None? {
        return Err(InvalidSignature);
      }
      parsed := parsed + [Signature(cut.value.0, decoded.value)];
    }
    assert fields[..|fields|] == fields;
    return Ok(parsed);
  }

  /** A version tag as the signers write it. */
  predicate PlainVersion(version: Bytes) {
    Graphic(version) && COMMA !in version
  }

  predicate Printable(s: Signature) {
    PlainVersion(s.version) && 1 <= |s.value| <= 192
  }

  lemma ParseFieldOfParts(version: Bytes, encoded: Bytes, value: Bytes)
    requires COMMA !in version && 1 <= |encoded| <= 256 && Decode(StdEncoding, encoded) == Some(value)
    ensures ParseField(version + [COMMA] + encoded) == Some(Signature(version, value))
  {
    CutOfPair(version, COMMA, encoded);
  }

  lemma EncodedFits(value: Bytes)
    requires 1 <= |value| <= 192
    ensures 1 <= |Encode(StdEncoding, value)| <= 256
  {
    EncodedLength(StdEncoding, value);
  }

  lemma ParseFieldOfField(s: Signature)
    requires Printable(s)
    ensures ParseField(FieldOf(s)) == Some(s)
  {
    EncodedFits(s.value);
    DecodeOfEncode(StdEncoding, s.value);
    ParseFieldOfParts(s.version, Encode(StdEncoding, s.value), s.value);
  }

  lemma GraphicConcat(a: Bytes, b: Bytes)
    requires Graphic(a) && Graphic(b)
    ensures Graphic(a + [COMMA] + b)
  {
  }

  lemma FieldIsGraphic(s: Signature)
    requires Printable(s)
    ensures Graphic(FieldOf(s)) && FieldOf(s) != []
  {
    EncodeIsGraphic(StdEncoding, s.value);
    GraphicConcat(s.version, Encode(StdEncoding, s.value));
  }

  /** The value of the signature header. */
  /** A field is a version without comma, a comma, and 1 to 256 bytes of padded base64. */
  lemma ParseFieldExactly(field: Bytes, s: Signature)
    ensures ParseField(field) == Some(s) <==> exists encoded :: FieldIs(field, s, encoded)
  {
    hide Decode;
    if ParseField(field) == Some(s) {
      var encoded := Cut(field, COMMA).value.1;
      assert FieldIs(field, s, encoded);
    }
    if exists encoded :: FieldIs(field, s, encoded) {
      var encoded :| FieldIs(field, s, encoded);
      CutOfPair(s.version, COMMA, encoded);
    }
  }

  predicate FieldIs(field: Bytes, s: Signature, encoded: Bytes) {
    && field == s.version + [COMMA] + encoded && COMMA !in s.version
    && 1 <= |encoded| <= 256 && Decode(StdEncoding, encoded) == Some(s.value)
  }

  lemma {:induction false} ParseAllExactly(fields: seq<Bytes>, list: seq<Signature>)
    ensures ParseAll(fields) == Some(list) <==>
      |list| == |fields| && forall i | 0 <= i < |fields| :: ParseField(fields[i]) == Some(list[i])
    decreases |fields|
  {
    hide ParseField;
    if fields == [] {
    } else {
      var n := |fields| - 1;
      if list == [] {
        assert ParseAll(fields) != Some(list);
      } else {
        ParseAllExactly(fields[..n], list[..|list| - 1]);
        assert list == list[..|list| - 1] + [list[|list| - 1]];
        if ParseAll(fields) == Some(list) {
          assert ParseAll(fields[..n]).value + [ParseField(fields[n]).value] == list;
          assert ParseAll(fields[..n]).value == list[..|list| - 1];
        }
      }
    }
  }

  /** A signature header is read as `list` exactly when its 1 to 32 white-space separated fields are the entries. */
  lemma ParseListExactly(value: Bytes, list: seq<Signature>)
    ensures ParseList(value) == Ok(list) <==>
      && 1 <= |list| <= 32 && |Fields(value)| == |list|
      && forall i | 0 <= i < |list| :: ParseField(Fields(value)[i]) == Some(list[i])
  {
    hide ParseField, Fields, ParseAll;
    ParseAllExactly(Fields(value), list);
  }

  /** One HMAC signature is printed as `v1,` and its padded base64. */
  lemma PrintedSignature(digest: Digest)
    ensures PrintList([Signature(HMAC_SIGNATURE_ID, digest)]) == [0x76, 0x31, 0x2C] + Encode(StdEncoding, digest)
  {
    hide Encode;
    assert FieldsOf([Signature(HMAC_SIGNATURE_ID, digest)]) == [FieldOf(Signature(HMAC_SIGNATURE_ID, digest))];
  }

  function PrintList(list: seq<Signature>): Bytes {
    Join(FieldsOf(list), SPACE)
  }

  /** Parsing undoes printing, for every list the 32-field limit admits. */
  lemma ParseListOfPrint(list: seq<Signature>)
    requires 1 <= |list| <= 32
    requires forall i | 0 <= i < |list| :: Printable(list[i])
    ensures ParseList(PrintList(list)) == Ok(list)
  {
    var fields := FieldsOf(list);
    forall i | 0 <= i < |fields|
      ensures fields[i] != [] && Graphic(fields[i]) && ParseField(fields[i]) == Some(list[i])
    {
      FieldIsGraphic(list[i]);
      ParseFieldOfField(list[i]);
    }
    hide ParseField, ParseList, Fields, FieldOf;
    FieldsOfJoin(fields);
    ParseListExactly(Join(fields, SPACE), list);
  }

  // ----- signing -----

  datatype SignInput = SignInput(messageId: Bytes, timestamp: Instant, body: Bytes)

  predicate ValidKeys(keys: seq<Bytes>) {
    1 <= |keys| <= 16 && forall i | 0 <= i < |keys| :: 24 <= |keys[i]| <= 64
  }

  method ValidateHMACKeys(keys: seq<Bytes>) returns (valid: bool)
    ensures valid == ValidKeys(keys)
  {
    if |keys| == 0 || |keys| > 16 {
      return false;
    }
    for i := 0 to |keys|
      invariant forall j | 0 <= j < i :: 24 <= |keys[j]| <= 64
    {
      if |keys[i]| < 24 || |keys[i]| > 64 {
        return false;
      }
    }
    return true;
  }

  function SignaturesOf(mac: Mac, keys: seq<Bytes>, content: Bytes): seq<Signature> {
    seq(|keys|, i requires 0 <= i < |keys| => Signature(HMAC_SIGNATURE_ID, mac(keys[i], content)))
  }

  function HeadersOf(id: Bytes, timestamp: Bytes, signatures: Bytes): Headers {
    map[HEADER_ID := [id], HEADER_TIMESTAMP := [timestamp], HEADER_SIGNATURE := [signatures]]
  }

  /** The headers of a message whose timestamp is printed as `text`. */
  function SignedHeaders(mac: Mac, keys: seq<Bytes>, id: Bytes, text: Bytes, body: Bytes): Headers {
    HeadersOf(id, text, PrintList(SignaturesOf(mac, keys, SignedContent(id, text, body))))
  }

  function SignOutcome(mac: Mac, provided: Result<seq<Bytes>>, input: SignInput): Result<Headers> {
    if !ValidMessageId(input.messageId) || input.timestamp.IsZero() then Err(InvalidMessage)
    else if provided.Err? then Err(Internal)
    else if !ValidKeys(provided.value) then Err(InvalidConfiguration)
    else Ok(SignedHeaders(mac, provided.value, input.messageId, FormatInt(input.timestamp.Unix()), input.body))
  }

  /** HMACSigner.Sign; `provided` is what the key provider returned. */
  method Sign(mac: Mac, provided: Result<seq<Bytes>>, input: SignInput) returns (r: Result<Headers>)
    ensures r == SignOutcome(mac, provided, input)
    ensures !ValidMessageId(input.messageId) || input.timestamp.IsZero() ==> r == Err(InvalidMessage)
    ensures ValidMessageId(input.messageId) && !input.timestamp.IsZero() ==>
      && (provided.Err? ==> r == Err(Internal))
      && (provided.Ok? && !ValidKeys(provided.value) ==> r == Err(InvalidConfiguration))
      && (provided.Ok? && ValidKeys(provided.value) ==> r.Ok? && |r.value| == 3)
  {
    if !ValidMessageId(input.messageId) {
      return Err(InvalidMessage);
    }
    if input.timestamp.IsZero() {
      return Err(InvalidMessage);
    }
    if provided.Err? {
      return Err(Internal);
    }
    var keys := provided.value;
    var valid := ValidateHMACKeys(keys);
    if !valid {
      return Err(InvalidConfiguration);
    }
    var timestamp := FormatInt(input.timestamp.Unix());
    var content := BuildSignedContent(input.messageId, timestamp, input.body);
    var signatures: seq<Bytes> := [];
    for i := 0 to |keys|
      invariant signatures == FieldsOf(SignaturesOf(mac, keys[..i], content))
    {
      signatures := signatures + [HMAC_SIGNATURE_ID + [COMMA] + Encode(StdEncoding, mac(keys[i], content))];
    }
    assert keys[..|keys|] == keys;
    return Ok(map[HEADER_ID := [input.messageId],
                  HEADER_TIMESTAMP := [timestamp],
                  HEADER_SIGNATURE := [Join(signatures, SPACE)]]);
  }

  // ----- verifying -----

  /** `hmacKeys` and `publicKeys` hold what the key providers return, when configured. */
  datatype VerifierConfig = VerifierConfig(
    hmacKeys: Option<Result<seq<Bytes>>>,
    publicKeys: Option<Result<seq<Bytes>>>,
    tolerance: Duration,
    source: string,
    extractType: Option<(Bytes, Headers) -> Result<string>>)

  datatype VerifyInput = VerifyInput(headers: Headers, body: Bytes, receivedAt: Instant)
  datatype Verification = Verification(id: Bytes, eventType: string, source: string, timestamp: Instant)

  function Values(headers: Headers, name: string): seq<Bytes> {
    if name in headers then headers[name] else []
  }

  function SingleHeader(headers: Headers, name: string): Result<Bytes> {
    var values := Values(headers, name);
    if |values| != 1 || TrimSpace(values[0]) == [] then Err(InvalidSignature)
    else
      var value := TrimSpace(values[0]);
      if CR in value || LF in value || 0 in value then Err(InvalidSignature) else Ok(value)
  }

  /** A header counts when it is sent once, and is not blank; its value is trimmed and free of CR, LF and NUL. */
  lemma SingleHeaderExactly(headers: Headers, name: string, value: Bytes)
    ensures SingleHeader(headers, name) == Ok(value) <==>
      && name in headers && |headers[name]| == 1 && value == TrimSpace(headers[name][0])
      && value != [] && CR !in value && LF !in value && 0 !in value
    ensures SingleHeader(headers, name).Err? ==> SingleHeader(headers, name).code == InvalidSignature
  {
    hide TrimSpace;
  }

  predicate ValidPublicKeys(keys: seq<Bytes>) {
    1 <= |keys| <= 16 && forall i | 0 <= i < |keys| :: |keys[i]| == 32
  }

  /** Some trusted HMAC key produces one of the `v1` signatures. */
  ghost predicate HMACMatches(mac: Mac, keys: seq<Bytes>, content: Bytes, list: seq<Signature>) {
    exists i, j :: 0 <= i < |keys| && 0 <= j < |list| && list[j] == Signature(HMAC_SIGNATURE_ID, mac(keys[i], content))
  }

  /** Some trusted Ed25519 key verifies one of the `v1a` signatures. */
  ghost predicate PublicKeyMatches(check: SignatureCheck, keys: seq<Bytes>, content: Bytes, list: seq<Signature>) {
    exists i, j :: 0 <= i < |keys| && 0 <= j < |list|
      && list[j].version == ED25519_SIGNATURE_ID && check(keys[i], content, list[j].value)
  }

  /** The keys the verifier trusts for one request, or the error that stops it. */
  function TrustedKeys(config: VerifierConfig): Result<(seq<Bytes>, seq<Bytes>)> {
    var hmac := if config.hmacKeys.Some? then config.hmacKeys.value else Ok([]);
    var public := if config.publicKeys.Some? then config.publicKeys.value else Ok([]);
    if hmac.Err? then Err(Internal)
    else if config.hmacKeys.Some? && !ValidKeys(hmac.value) then Err(InvalidConfiguration)
    else if public.Err? then Err(Internal)
    else if config.publicKeys.Some? && !ValidPublicKeys(public.value) then Err(InvalidConfiguration)
    else Ok((hmac.value, public.value))
  }

  /** Key lists are used only when every configured provider returned a list within the limits. */
  lemma TrustedKeysAreChecked(config: VerifierConfig)
    ensures TrustedKeys(config).Ok? <==>
      && (config.hmacKeys.Some? ==>
            && config.hmacKeys.value.Ok? && 1 <= |config.hmacKeys.value.value| <= 16
            && forall k | k in config.hmacKeys.value.value :: 24 <= |k| <= 64)
      && (config.publicKeys.Some? ==>
            && config.publicKeys.value.Ok? && 1 <= |config.publicKeys.value.value| <= 16
            && forall k | k in config.publicKeys.value.value :: |k| == 32)
    ensures TrustedKeys(config).Ok? ==>
      && TrustedKeys(config).value.0 == (if config.hmacKeys.Some? then config.hmacKeys.value.value else [])
      && TrustedKeys(config).value.1 == (if config.publicKeys.Some? then config.publicKeys.value.value else [])
  {
  }

  ghost predicate Matches(
    mac: Mac, check: SignatureCheck, keys: (seq<Bytes>, seq<Bytes>), content: Bytes, list: seq<Signature>)
  {
    HMACMatches(mac, keys.0, content, list) || PublicKeyMatches(check, keys.1, content, list)
  }

  /** Verifier.verifyAny: every key is tried against every signature, with no early exit. */
  method VerifyAny(mac: Mac, check: SignatureCheck, config: VerifierConfig, content: Bytes, list: seq<Signature>)
    returns (r: Result<bool>)
    ensures r.Err? <==> TrustedKeys(config).Err?
    ensures r.Err? ==> r.code == TrustedKeys(config).code
    ensures r.Ok? ==> (r.value <==> Matches(mac, check, TrustedKeys(config).value, content, list))
  {
    var valid := false;
    if config.hmacKeys.Some? {
      var provided := config.hmacKeys.value;
      if provided.Err? {
        return Err(Internal);
      }
      var keys := provided.value;
      var wellFormed := ValidateHMACKeys(keys);
      if !wellFormed {
        return Err(InvalidConfiguration);
      }
      for i := 0 to |keys|
        invariant valid <==> HMACMatches(mac, keys[..i], content, list)
      {
        var expected := mac(keys[i], content);
        for j := 0 to |list|
          invariant valid <==> (HMACMatches(mac, keys[..i], content, list)
                                || HMACMatches(mac, [keys[i]], content, list[..j]))
        {
          var hit := list[j].version == HMAC_SIGNATURE_ID && |list[j].value| == |expected| && list[j].value == expected;
          HMACMatchesOneMore(mac, keys[i], content, list[..j], list[j]);
          assert list[..j + 1] == list[..j] + [list[j]];
          valid := valid || hit;
        }
        assert list[..|list|] == list;
        HMACMatchesSplit(mac, keys[..i], keys[i], content, list);
        assert keys[..i + 1] == keys[..i] + [keys[i]];
      }
      assert keys[..|keys|] == keys;
    }
    if config.publicKeys.Some? {
      ghost var before := valid;
      var provided := config.publicKeys.value;
      if provided.Err? {
        return Err(Internal);
      }
      var keys := provided.value;
      if |keys| == 0 || |keys| > 16 {
        return Err(InvalidConfiguration);
      }
      for i := 0 to |keys|
        invariant forall k | 0 <= k < i :: |keys[k]| == 32
        invariant valid <==> before || PublicKeyMatches(check, keys[..i], content, list)
      {
        if |keys[i]| != 32 {
          return Err(InvalidConfiguration);
        }
        for j := 0 to |list|
          invariant valid <==> (before || PublicKeyMatches(check, keys[..i], content, list)
                                || PublicKeyMatches(check, [keys[i]], content, list[..j]))
        {
          PublicKeyMatchesOneMore(check, keys[i], content, list[..j], list[j]);
          assert list[..j + 1] == list[..j] + [list[j]];
          if list[j].version == ED25519_SIGNATURE_ID && check(keys[i], content, list[j].value) {
            valid := true;
          }
        }
        assert list[..|list|] == list;
        PublicKeyMatchesSplit(check, keys[..i], keys[i], content, list);
        assert keys[..i + 1] == keys[..i] + [keys[i]];
      }
      assert keys[..|keys|] == keys;
    }
    return Ok(valid);
  }

  lemma HMACMatchesOneMore(mac: Mac, key: Bytes, content: Bytes, list: seq<Signature>, s: Signature)
    ensures HMACMatches(mac, [key], content, list + [s])
       <==> HMACMatches(mac, [key], content, list) || s == Signature(HMAC_SIGNATURE_ID, mac(key, content))
  {
    var all := list + [s];
    assert all[|list|] == s;
    assert forall j | 0 <= j < |list| :: all[j] == list[j];
    if s == Signature(HMAC_SIGNATURE_ID, mac(key, content)) {
      assert all[|list|] == Signature(HMAC_SIGNATURE_ID, mac([key][0], content));
    }
  }

  lemma HMACMatchesSplit(mac: Mac, keys: seq<Bytes>, key: Bytes, content: Bytes, list: seq<Signature>)
    ensures HMACMatches(mac, keys + [key], content, list)
       <==> HMACMatches(mac, keys, content, list) || HMACMatches(mac, [key], content, list)
  {
    var all := keys + [key];
    assert forall i | 0 <= i < |keys| :: all[i] == keys[i];
    assert all[|keys|] == [key][0];
  }

  lemma PublicKeyMatchesOneMore(check: SignatureCheck, key: Bytes, content: Bytes, list: seq<Signature>, s: Signature)
    ensures PublicKeyMatches(check, [key], content, list + [s])
      <==> (PublicKeyMatches(check, [key], content, list)
            || (s.version == ED25519_SIGNATURE_ID && check(key, content, s.value)))
  {
    var all := list + [s];
    assert all[|list|] == s;
    assert forall j | 0 <= j < |list| :: all[j] == list[j];
    if s.version == ED25519_SIGNATURE_ID && check(key, content, s.value) {
      assert check([key][0], content, all[|list|].value);
    }
  }

  lemma PublicKeyMatchesSplit(check: SignatureCheck, keys: seq<Bytes>, key: Bytes, content: Bytes, list: seq<Signature>)
    ensures PublicKeyMatches(check, keys + [key], content, list)
       <==> PublicKeyMatches(check, keys, content, list) || PublicKeyMatches(check, [key], content, list)
  {
    var all := keys + [key];
    assert forall i | 0 <= i < |keys| :: all[i] == keys[i];
    assert all[|keys|] == [key][0];
  }

  /** What a request claims before any signature is checked. */
  datatype Claim = Claim(id: Bytes, timestampText: Bytes, timestamp: Instant, signatures: seq<Signature>)

  /** The well-formed claim of a request, or the error Verify stops with. */
  function ClaimOf(config: VerifierConfig, input: VerifyInput, now: Instant): Result<Claim> {
    match SingleHeader(input.headers, HEADER_ID)
    case Err(e) => Err(e)
    case Ok(id) =>
      if !ValidMessageId(id) then Err(InvalidMessage) else
      match SingleHeader(input.headers, HEADER_TIMESTAMP)
      case Err(e) => Err(e)
      case Ok(text) =>
        match ParseInt(text)
        case None => Err(InvalidSignature)
        case Some(seconds) =>
          var receivedAt := if input.receivedAt.IsZero() then now else input.receivedAt;
          if config.tolerance > 0 && OutsideTolerance(receivedAt, UnixTime(seconds), config.tolerance)
          then Err(ExpiredSignature)
          else if Values(input.headers, HEADER_SIGNATURE) == [] then Err(InvalidSignature)
          else
            match ParseList(Join(Values(input.headers, HEADER_SIGNATURE), SPACE))
            case Err(e) => Err(e)
            case Ok(list) => Ok(Claim(id, text, UnixTime(seconds), list))
  }

  /** A request is authentic when its claim is well formed and a trusted key vouches for the exact content. */
  ghost predicate Authentic(mac: Mac, check: SignatureCheck, config: VerifierConfig, input: VerifyInput, now: Instant) {
    && ClaimOf(config, input, now).Ok? && TrustedKeys(config).Ok?
    && var claim := ClaimOf(config, input, now).value;
       Matches(mac, check, TrustedKeys(config).value,
               SignedContent(claim.id, claim.timestampText, input.body), claim.signatures)
  }

  function EventTypeOf(config: VerifierConfig, input: VerifyInput): Result<string> {
    if config.extractType.Some? then config.extractType.value(input.body, input.headers) else Ok("unknown")
  }

  /** When a request arrived, by its own account or by the clock. */
  function Arrival(input: VerifyInput, now: Instant): Instant {
    if input.receivedAt.IsZero() then now else input.receivedAt
  }

  /** The request is in order up to its timestamp, and that is further from the arrival than the tolerance allows. */
  predicate Expired(config: VerifierConfig, input: VerifyInput, now: Instant) {
    && 0 < config.tolerance < MAX_INT64
    && SingleHeader(input.headers, HEADER_ID).Ok? && ValidMessageId(SingleHeader(input.headers, HEADER_ID).value)
    && SingleHeader(input.headers, HEADER_TIMESTAMP).Ok?
    && ParseInt(SingleHeader(input.headers, HEADER_TIMESTAMP).value).Some?
    && Beyond(Arrival(input, now), UnixTime(ParseInt(SingleHeader(input.headers, HEADER_TIMESTAMP).value).value),
              config.tolerance)
  }

  /** No claim is further from its arrival than the tolerance, and one that is gets its own error. */
  lemma ClaimsAreTimely(config: VerifierConfig, input: VerifyInput, now: Instant)
    ensures ClaimOf(config, input, now).Ok? && 0 < config.tolerance < MAX_INT64 ==>
      !Beyond(Arrival(input, now), ClaimOf(config, input, now).value.timestamp, config.tolerance)
    ensures Expired(config, input, now) ==> ClaimOf(config, input, now) == Err(ExpiredSignature)
  {
    hide ParseList, SingleHeader, ParseInt, ValidMessageId;
  }

  /** Verifier.Verify; `now` is the system clock, read only when the request carries no arrival time. */
  method Verify(mac: Mac, check: SignatureCheck, config: VerifierConfig, input: VerifyInput, now: Instant)
    returns (r: Result<Verification>)
    ensures r.Ok? <==> Authentic(mac, check, config, input, now) && EventTypeOf(config, input).Ok?
    ensures r.Ok? ==>
      var claim := ClaimOf(config, input, now).value;
      r.value == Verification(claim.id, EventTypeOf(config, input).value, config.source, claim.timestamp)
    ensures ClaimOf(config, input, now).Err? ==> r.Err? && r.code == ClaimOf(config, input, now).code
    ensures ClaimOf(config, input, now).Ok? && TrustedKeys(config).Err? ==> r.Err? && r.code == TrustedKeys(config).code
    ensures ClaimOf(config, input, now).Ok? && TrustedKeys(config).Ok? && !Authentic(mac, check, config, input, now)
        ==> r == Err(InvalidSignature)
    ensures r.Ok? && 0 < config.tolerance < MAX_INT64 ==>
      !Beyond(Arrival(input, now), r.value.timestamp, config.tolerance)
    ensures Expired(config, input, now) ==> r == Err(ExpiredSignature)
    ensures r.Ok? ==> SingleHeader(input.headers, HEADER_ID) == Ok(r.value.id) && ValidMessageId(r.value.id)
    ensures r.Ok? ==> r.value.source == config.source
    ensures r.Ok? ==>
      if config.extractType.Some? then config.extractType.value(input.body, input.headers) == Ok(r.value.eventType)
      else r.value.eventType == "unknown"
  {
    ClaimsAreTimely(config, input, now);
    hide Expired, Beyond;
    var id := SingleHeader(input.headers, HEADER_ID);
    if id.Err? {
      return Err(id.code);
    }
    if !ValidMessageId(id.value) {
      return Err(InvalidMessage);
    }
    var text := SingleHeader(input.headers, HEADER_TIMESTAMP);
    if text.Err? {
      return Err(text.code);
    }
    var seconds := ParseInt(text.value);
    if seconds.None? {
      return Err(InvalidSignature);
    }
    var timestamp := UnixTime(seconds.value);
    var receivedAt := input.receivedAt;
    if receivedAt.IsZero() {
      receivedAt := now;
    }
    if config.tolerance > 0 && OutsideTolerance(receivedAt, timestamp, config.tolerance) {
      return Err(ExpiredSignature);
    }
    var values := Values(input.headers, HEADER_SIGNATURE);
    if |values| == 0 {
      return Err(InvalidSignature);
    }
    var signatures := ParseSignatures(Join(values, SPACE));
    if signatures.Err? {
      return Err(signatures.code);
    }
    var content := BuildSignedContent(id.value, text.value, input.body);
    var valid := VerifyAny(mac, check, config, content, signatures.value);
    if valid.Err? {
      return Err(valid.code);
    }
    if !valid.value {
      return Err(InvalidSignature);
    }
    var eventType := "unknown";
    if config.extractType.Some? {
      var extracted := config.extractType.value(input.body, input.headers);
      if extracted.Err? {
        return Err(extracted.code);
      }
      eventType := extracted.value;
    }
    return Ok(Verification(id.value, eventType, config.source, timestamp));
  }

  // ----- verification undoes signing -----

  lemma ValidIdSurvivesHeader(id: Bytes, headers: Headers, name: string)
    requires ValidMessageId(id) && Values(headers, name) == [id]
    ensures SingleHeader(headers, name) == Ok(id)
  {
  }

  predicate Timely(config: VerifierConfig, receivedAt: Instant, now: Instant, timestamp: Instant) {
    config.tolerance > 0 ==>
      !OutsideTolerance(if receivedAt.IsZero() then now else receivedAt, timestamp.WholeSeconds(), config.tolerance)
  }

  /** `text` is the decimal form of the Unix time of `timestamp`. */
  predicate TimestampText(text: Bytes, timestamp: Instant) {
    && Graphic(text) && text != []
    && ParseInt(text).Some? && UnixTime(ParseInt(text).value) == timestamp.WholeSeconds()
  }

  lemma PrintedTimestamp(timestamp: Instant)
    ensures TimestampText(FormatInt(timestamp.Unix()), timestamp)
  {
    ParseFormatInt(timestamp.Unix());
    UnixTimeOfUnix(timestamp);
  }

  lemma TextSurvivesHeader(text: Bytes, headers: Headers, name: string)
    requires Graphic(text) && text != [] && Values(headers, name) == [text]
    ensures SingleHeader(headers, name) == Ok(text)
  {
    TrimGraphic(text);
  }

  /** The claim read back from signed headers is the message that was signed. */
  lemma ClaimOfSignedHeaders(
    config: VerifierConfig, id: Bytes, text: Bytes, timestamp: Instant, signatures: Bytes, list: seq<Signature>,
    body: Bytes, receivedAt: Instant, now: Instant)
    requires ValidMessageId(id) && TimestampText(text, timestamp) && ParseList(signatures) == Ok(list)
    requires Timely(config, receivedAt, now, timestamp)
    ensures ClaimOf(config, VerifyInput(HeadersOf(id, text, signatures), body, receivedAt), now)
         == Ok(Claim(id, text, timestamp.WholeSeconds(), list))
  {
    var headers := HeadersOf(id, text, signatures);
    ValidIdSurvivesHeader(id, headers, HEADER_ID);
    TextSurvivesHeader(text, headers, HEADER_TIMESTAMP);
    assert Join([signatures], SPACE) == signatures;
  }

  /** The signed content of a request that claims to be `claim`. */
  function ClaimedContent(claim: Claim, body: Bytes): Bytes {
    SignedContent(claim.id, claim.timestampText, body)
  }

  lemma SignaturesMatch(
    mac: Mac, check: SignatureCheck, keys: seq<Bytes>, trusted: (seq<Bytes>, seq<Bytes>), content: Bytes,
    shared: Bytes)
    requires shared in keys && shared in trusted.0
    ensures Matches(mac, check, trusted, content, SignaturesOf(mac, keys, content))
  {
    var i :| 0 <= i < |keys| && keys[i] == shared;
    var k :| 0 <= k < |trusted.0| && trusted.0[k] == shared;
    assert SignaturesOf(mac, keys, content)[i] == Signature(HMAC_SIGNATURE_ID, mac(trusted.0[k], content));
  }

  lemma SignedTextVerifies(
    mac: Mac, check: SignatureCheck, keys: seq<Bytes>, config: VerifierConfig, id: Bytes, text: Bytes,
    timestamp: Instant,
    body: Bytes, receivedAt: Instant, now: Instant, shared: Bytes)
    requires ValidMessageId(id) && TimestampText(text, timestamp) && ValidKeys(keys)
    requires TrustedKeys(config).Ok? && shared in keys && shared in TrustedKeys(config).value.0
    requires Timely(config, receivedAt, now, timestamp)
    ensures
      var request := VerifyInput(SignedHeaders(mac, keys, id, text, body), body, receivedAt);
      && Authentic(mac, check, config, request, now)
      && ClaimOf(config, request, now).value.id == id
      && ClaimOf(config, request, now).value.timestamp == timestamp.WholeSeconds()
  {
    var content := SignedContent(id, text, body);
    var list := SignaturesOf(mac, keys, content);
    ParseListOfPrint(list);
    ClaimOfSignedHeaders(config, id, text, timestamp, PrintList(list), list, body, receivedAt, now);
    SignaturesMatch(mac, check, keys, TrustedKeys(config).value, content, shared);
  }

  /**
   * Key rotation: whatever else the two key lists hold, one key in common is enough for Verify to accept what
   * Sign produced, with the signed id and the timestamp to the second.
   */
  lemma SignThenVerify(
    mac: Mac, check: SignatureCheck, keys: seq<Bytes>, config: VerifierConfig, input: SignInput,
    receivedAt: Instant, now: Instant, shared: Bytes)
    requires ValidMessageId(input.messageId) && !input.timestamp.IsZero() && ValidKeys(keys)
    requires TrustedKeys(config).Ok? && shared in keys && shared in TrustedKeys(config).value.0
    requires Timely(config, receivedAt, now, input.timestamp)
    ensures SignOutcome(mac, Ok(keys), input).Ok?
    ensures
      var request := VerifyInput(SignOutcome(mac, Ok(keys), input).value, input.body, receivedAt);
      && Authentic(mac, check, config, request, now)
      && ClaimOf(config, request, now).value.id == input.messageId
      && ClaimOf(config, request, now).value.timestamp == input.timestamp.WholeSeconds()
  {
    PrintedTimestamp(input.timestamp);
    SignedTextVerifies(mac, check, keys, config, input.messageId, FormatInt(input.timestamp.Unix()), input.timestamp,
      input.body, receivedAt, now, shared);
  }

  /** The received content is not the signed one, and yet a trusted key gives it the MAC of the signed content. */
  ghost predicate Collides(mac: Mac, trusted: seq<Bytes>, received: Bytes, keys: seq<Bytes>, content: Bytes) {
    received != content && exists k, k' | k in trusted && k' in keys :: mac(k, received) == mac(k', content)
  }

  lemma ContentDeterminesMessage(claim: Claim, body: Bytes, input: SignInput, text: Bytes)
    requires ValidMessageId(claim.id) && ValidMessageId(input.messageId) && TimestampText(text, input.timestamp)
    requires ParseInt(claim.timestampText).Some? && claim.timestamp == UnixTime(ParseInt(claim.timestampText).value)
    requires SignedContent(claim.id, claim.timestampText, body) == SignedContent(input.messageId, text, input.body)
    ensures Unaltered(claim, body, input)
  {
    SignedContentIsUnambiguous(claim.id, claim.timestampText, body, input.messageId, text, input.body);
  }

  lemma ClaimIsWellFormed(config: VerifierConfig, request: VerifyInput, now: Instant)
    requires ClaimOf(config, request, now).Ok?
    ensures
      var claim := ClaimOf(config, request, now).value;
      && ValidMessageId(claim.id) && ParseInt(claim.timestampText).Some?
      && claim.timestamp == UnixTime(ParseInt(claim.timestampText).value)
  {
  }

  lemma ClaimedSignatures(config: VerifierConfig, request: VerifyInput, now: Instant, text: Bytes)
    requires ClaimOf(config, request, now).Ok? && Values(request.headers, HEADER_SIGNATURE) == [text]
    ensures ParseList(text) == Ok(ClaimOf(config, request, now).value.signatures)
  {
    assert Join([text], SPACE) == text;
  }

  predicate Unaltered(claim: Claim, body: Bytes, input: SignInput) {
    claim.id == input.messageId && claim.timestamp == input.timestamp.WholeSeconds() && body == input.body
  }

  /** One matching signature of the list ties the received content to the signed one. */
  lemma MatchTiesContents(mac: Mac, keys: seq<Bytes>, trusted: seq<Bytes>, content: Bytes, received: Bytes)
    requires HMACMatches(mac, trusted, received, SignaturesOf(mac, keys, content))
    ensures received == content || Collides(mac, trusted, received, keys, content)
  {
    var list := SignaturesOf(mac, keys, content);
    var i, j :| 0 <= i < |trusted| && 0 <= j < |list|
      && list[j] == Signature(HMAC_SIGNATURE_ID, mac(trusted[i], received));
    assert list[j] == Signature(HMAC_SIGNATURE_ID, mac(keys[j], content));
    assert trusted[i] in trusted && keys[j] in keys && mac(trusted[i], received) == mac(keys[j], content);
  }

  /** No Ed25519 signature is among those an HMAC signer produces. */
  lemma NoPublicKeyMatch(
    mac: Mac, check: SignatureCheck, keys: seq<Bytes>, trusted: seq<Bytes>, content: Bytes, received: Bytes)
    ensures !PublicKeyMatches(check, trusted, received, SignaturesOf(mac, keys, content))
  {
    assert HMAC_SIGNATURE_ID != ED25519_SIGNATURE_ID;
  }

  lemma AuthenticTiesContents(
    mac: Mac, check: SignatureCheck, keys: seq<Bytes>, config: VerifierConfig, request: VerifyInput, now: Instant,
    content: Bytes)
    requires Authentic(mac, check, config, request, now)
    requires ClaimOf(config, request, now).value.signatures == SignaturesOf(mac, keys, content)
    ensures
      var received := ClaimedContent(ClaimOf(config, request, now).value, request.body);
      received == content || Collides(mac, TrustedKeys(config).value.0, received, keys, content)
  {
    var trusted := TrustedKeys(config).value;
    var received := ClaimedContent(ClaimOf(config, request, now).value, request.body);
    assert HMACMatches(mac, trusted.0, received, SignaturesOf(mac, keys, content)) by {
      NoPublicKeyMatch(mac, check, keys, trusted.1, content, received);
    }
    MatchTiesContents(mac, keys, TrustedKeys(config).value.0, content,
      ClaimedContent(ClaimOf(config, request, now).value, request.body));
  }

  lemma SignedHeaderIsReadBack(
    mac: Mac, keys: seq<Bytes>, content: Bytes, config: VerifierConfig, request: VerifyInput, now: Instant)
    requires ClaimOf(config, request, now).Ok? && ValidKeys(keys)
    requires Values(request.headers, HEADER_SIGNATURE) == [PrintList(SignaturesOf(mac, keys, content))]
    ensures ClaimOf(config, request, now).value.signatures == SignaturesOf(mac, keys, content)
  {
    hide ParseList, ClaimOf;
    ParseListOfPrint(SignaturesOf(mac, keys, content));
    ClaimedSignatures(config, request, now, PrintList(SignaturesOf(mac, keys, content)));
  }

  lemma AcceptedTextIsUnaltered(
    mac: Mac, check: SignatureCheck, keys: seq<Bytes>, config: VerifierConfig, input: SignInput, text: Bytes,
    request: VerifyInput, now: Instant)
    requires ValidMessageId(input.messageId) && TimestampText(text, input.timestamp) && ValidKeys(keys)
    requires Authentic(mac, check, config, request, now)
    requires Values(request.headers, HEADER_SIGNATURE)
          == [PrintList(SignaturesOf(mac, keys, SignedContent(input.messageId, text, input.body)))]
    ensures
      var claim := ClaimOf(config, request, now).value;
      Unaltered(claim, request.body, input)
        || Collides(mac, TrustedKeys(config).value.0, ClaimedContent(claim, request.body), keys,
                    SignedContent(input.messageId, text, input.body))
  {
    var content := SignedContent(input.messageId, text, input.body);
    var claim := ClaimOf(config, request, now).value;
    SignedHeaderIsReadBack(mac, keys, content, config, request, now);
    AuthenticTiesContents(mac, check, keys, config, request, now, content);
    if ClaimedContent(claim, request.body) == content {
      ClaimIsWellFormed(config, request, now);
      ContentDeterminesMessage(claim, request.body, input, text);
    }
  }

  /**
   * Tampering: a request that carries the signature header of a signed message and is accepted is that message,
   * id, timestamp and body, unless the content it claims happens to have, under a trusted key, the very MAC that a
   * signing key gave the signed content.
   */
  lemma AcceptedMeansUnaltered(
    mac: Mac, check: SignatureCheck, keys: seq<Bytes>, config: VerifierConfig, input: SignInput,
    request: VerifyInput, now: Instant)
    requires SignOutcome(mac, Ok(keys), input).Ok?
    requires Values(request.headers, HEADER_SIGNATURE) == SignOutcome(mac, Ok(keys), input).value[HEADER_SIGNATURE]
    requires Authentic(mac, check, config, request, now)
    ensures
      var claim := ClaimOf(config, request, now).value;
      Unaltered(claim, request.body, input)
        || Collides(mac, TrustedKeys(config).value.0, ClaimedContent(claim, request.body), keys,
                    SignedContent(input.messageId, FormatInt(input.timestamp.Unix()), input.body))
  {
    PrintedTimestamp(input.timestamp);
    AcceptedTextIsUnaltered(mac, check, keys, config, input, FormatInt(input.timestamp.Unix()), request, now);
  }

  // ----- textual keys -----

  function TrimPrefix(s: Bytes, prefix: Bytes): Bytes {
    if prefix <= s then s[|prefix|..] else s
  }

  function EncodeHMACSecret(key: Bytes): Result<Bytes> {
    if |key| < 24 || |key| > 64 then Err(InvalidConfiguration)
    else Ok(HMAC_SECRET_PREFIX + Encode(RawStdEncoding, key))
  }

  function ParseHMACSecret(value: Bytes): Result<Bytes> {
    match FirstAccepted(ATTEMPTED, TrimPrefix(TrimSpace(value), HMAC_SECRET_PREFIX))
    case None => Err(InvalidConfiguration)
    case Some(key) => if |key| < 24 || |key| > 64 then Err(InvalidConfiguration) else Ok(key)
  }

  /** A text is read as a key exactly when some encoding reads it so, without the prefix, at 24 to 64 bytes. */
  lemma ParseSecretExactly(value: Bytes, key: Bytes)
    ensures ParseHMACSecret(value) == Ok(key) <==>
      && 24 <= |key| <= 64
      && exists e :: e in ATTEMPTED && Decode(e, TrimPrefix(TrimSpace(value), HMAC_SECRET_PREFIX)) == Some(key)
    ensures ParseHMACSecret(value).Err? ==> ParseHMACSecret(value).code == InvalidConfiguration
  {
    hide FirstAccepted, Decode, TrimSpace;
    FirstAcceptedIsAny(ATTEMPTED, TrimPrefix(TrimSpace(value), HMAC_SECRET_PREFIX), key);
  }

  /** A secret survives printing and parsing exactly when its length is allowed. */
  lemma ParseEncodedSecret(key: Bytes)
    ensures EncodeHMACSecret(key).Ok? <==> 24 <= |key| <= 64
    ensures EncodeHMACSecret(key).Ok? ==> ParseHMACSecret(EncodeHMACSecret(key).value) == Ok(key)
  {
    if 24 <= |key| <= 64 {
      var encoded := Encode(RawStdEncoding, key);
      var value := HMAC_SECRET_PREFIX + encoded;
      EncodeIsGraphic(RawStdEncoding, key);
      TrimGraphic(value);
      assert value[|HMAC_SECRET_PREFIX|..] == encoded;
      DecodeOfEncode(RawStdEncoding, key);
    }
  }

  /** Secrets printed with padding or in the URL alphabet are read as the same key. */
  lemma ParseForeignSecret(e: Encoding, key: Bytes)
    requires 24 <= |key| <= 64
    ensures ParseHMACSecret(HMAC_SECRET_PREFIX + Encode(e, key)) == Ok(key)
  {
    hide Encode, Decode, TrimSpace, FirstAccepted;
    var encoded := Encode(e, key);
    var value := HMAC_SECRET_PREFIX + encoded;
    EncodeIsGraphic(e, key);
    TrimGraphic(value);
    assert value[|HMAC_SECRET_PREFIX|..] == encoded;
    DecodeOfEncode(e, key);
    assert e in ATTEMPTED by {
      assert e == ATTEMPTED[if e.url then (if e.padded then 3 else 2) else (if e.padded then 1 else 0)];
    }
    FirstAcceptedIsAny(ATTEMPTED, encoded, key);
  }
}
