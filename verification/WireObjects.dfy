/** The four canonical wire objects: opaque envelope, deposit endpoint, protected and inner join request. */
module WireObjects {
  import opened Common
  import opened Cbor

  const MAX_WIRE_OBJECT_BYTES: nat := 64 * 1024
  const MAX_ENVELOPE_CIPHERTEXT_BYTES: nat := 60 * 1024
  const MAX_LOCAL_WELCOME_ENDPOINT_BYTES: nat := 128
  const MAX_CAPABILITY_JOIN_REQUEST_BYTES: nat := 24 * 1024
  const MAX_JOIN_KEY_PACKAGE_BYTES: nat := 16 * 1024
  const MAX_PROTECTED_JOIN_REQUEST_BYTES: nat := 32 * 1024
  const MAX_PROTECTED_JOIN_CIPHERTEXT_BYTES: nat := MAX_PROTECTED_JOIN_REQUEST_BYTES - 75
  /** The sealed inbox's outer bound for one encoded envelope. */
  const MAX_ENCODED_OPAQUE_ENVELOPE_BYTES: nat := MAX_ENVELOPE_CIPHERTEXT_BYTES + 64

  function Bounded(encoded: Bytes, maximum: nat): Result<Bytes, WireError> {
    if |encoded| > maximum then Err(WireObjectTooLarge(|encoded|, maximum)) else Ok(encoded)
  }

  /** Reads one field list that must start at byte 0, under the size bound checked before parsing. */
  function Parse(fields: seq<Field>, maximum: nat, input: Bytes): (r: Result<(seq<Item>, nat), WireError>)
    ensures r.Ok? ==> AllConform(fields, r.value.0) && Encodable(r.value.0) && r.value.1 <= |input|
  {
    if |input| > maximum then Err(WireObjectTooLarge(|input|, maximum))
    else
      var r := DecodeFrom(fields, 0, input, 0);
      ParseFacts(fields, input);
      r
  }

  lemma ParseFacts(fields: seq<Field>, input: Bytes)
    ensures var r := DecodeFrom(fields, 0, input, 0);
            r.Ok? ==> AllConform(fields, r.value.0) && Encodable(r.value.0) && r.value.1 <= |input|
  {
    var r := DecodeFrom(fields, 0, input, 0);
    if r.Ok? {
      DecodedItemsConform(fields, 0, input, 0);
      assert r.value.0[0..] == r.value.0;
      ListReencoding(fields, 0, input, 0, r.value.0);
    }
  }

  /** The encoding of a conforming item list parses back to exactly that list, using every byte. */
  lemma ParseOfEncoding(fields: seq<Field>, items: seq<Item>, maximum: nat)
    requires AllConform(fields, items) && Encodable(items)
    requires SizeFrom(items, 0) <= maximum
    ensures Parse(fields, maximum, EncodeFrom(fields, items, 0)) == Ok((items, SizeFrom(items, 0)))
  {
    var encoded := EncodeFrom(fields, items, 0);
    assert encoded[0..|encoded|] == encoded;
    ListRoundTrip(fields, items, 0, encoded, 0);
    assert items[0..] == items;
  }

  /** After a parse that used every byte, re-encoding gives the input back iff all heads are shortest. */
  lemma ReencodingDecides(fields: seq<Field>, maximum: nat, input: Bytes)
    requires var r := Parse(fields, maximum, input); r.Ok? && r.value.1 == |input|
    ensures EncodeFrom(fields, Parse(fields, maximum, input).value.0, 0) == input
       <==> ShortestFrom(fields, 0, input, 0)
  {
    var items := Parse(fields, maximum, input).value.0;
    assert items[0..] == items;
    ListReencoding(fields, 0, input, 0, items);
    assert input[0..|input|] == input;
  }

  // ---------- opaque envelope ----------

  const ENVELOPE: seq<Field> := [
    ArrayOf(5),
    Code(1, UnsupportedVersion),
    Code(1, UnsupportedObjectType),
    Fixed(16, InvalidEnvelopeIdLength),
    Time,
    Blob(0, MAX_ENVELOPE_CIPHERTEXT_BYTES, CiphertextTooLarge, CiphertextTooLarge)
  ]

  datatype OpaqueEnvelope = OpaqueEnvelope(id: Bytes, expiresAt: u64, ciphertext: Bytes) {
    predicate Constructible() {
      |id| == 16 && |ciphertext| <= MAX_ENVELOPE_CIPHERTEXT_BYTES
    }

    function Items(): seq<Item> {
      [Num(5), Num(1), Num(1), Str(id), Num(expiresAt), Str(ciphertext)]
    }
  }

  function NewEnvelope(id: Bytes, expiresAt: u64, ciphertext: Bytes): (r: Result<OpaqueEnvelope, WireError>)
    requires |id| == 16
    ensures r.Ok? <==> OpaqueEnvelope(id, expiresAt, ciphertext).Constructible()
  {
    if |ciphertext| > MAX_ENVELOPE_CIPHERTEXT_BYTES then Err(Refused(CiphertextTooLarge, |ciphertext|))
    else Ok(OpaqueEnvelope(id, expiresAt, ciphertext))
  }

  function EncodeEnvelope(e: OpaqueEnvelope): Result<Bytes, WireError>
    requires e.Constructible()
  {
    Bounded(EncodeFrom(ENVELOPE, e.Items(), 0), MAX_WIRE_OBJECT_BYTES)
  }

  function DecodeEnvelope(input: Bytes): (r: Result<OpaqueEnvelope, WireError>)
    ensures r.Ok? ==> r.value.Constructible()
  {
    var (items, end) :- Parse(ENVELOPE, MAX_WIRE_OBJECT_BYTES, input);
    if end != |input| then Err(TrailingData)
    else
      assert Conforms(ENVELOPE[3], items[3]) && Conforms(ENVELOPE[4], items[4]) && Conforms(ENVELOPE[5], items[5]);
      match NewEnvelope(items[3].s, items[4].n, items[5].s)
      case Err(error) => Err(error)
      case Ok(e) =>
        var again :- EncodeEnvelope(e);
        if again != input then Err(NonDeterministicEncoding) else Ok(e)
  }

  lemma EnvelopeSize(e: OpaqueEnvelope)
    requires e.Constructible()
    ensures SizeFrom(e.Items(), 0) == 20 + HeadSize(e.expiresAt) + HeadSize(|e.ciphertext|) + |e.ciphertext|
    ensures SizeFrom(e.Items(), 0) <= MAX_ENCODED_OPAQUE_ENVELOPE_BYTES <= MAX_WIRE_OBJECT_BYTES
  {
    var items := e.Items();
    assert SizeFrom(items, 6) == 0;
    assert SizeFrom(items, 4) == HeadSize(e.expiresAt) + HeadSize(|e.ciphertext|) + |e.ciphertext|;
    assert SizeFrom(items, 2) == 18 + SizeFrom(items, 4);
  }

  lemma EnvelopeItemsOf(items: seq<Item>)
    requires AllConform(ENVELOPE, items)
    ensures var e := OpaqueEnvelope(items[3].s, items[4].n, items[5].s); e.Constructible() && e.Items() == items
  {
    assert forall k :: 0 <= k < 6 ==> Conforms(ENVELOPE[k], items[k]);
  }

  /** Decoding accepts exactly the encodings of constructible envelopes, and inverts them. */
  lemma EnvelopeCodec(e: OpaqueEnvelope, input: Bytes)
    ensures DecodeEnvelope(input) == Ok(e) <==> e.Constructible() && EncodeEnvelope(e) == Ok(input)
  {
    if e.Constructible() && EncodeEnvelope(e) == Ok(input) {
      EnvelopeSize(e);
      ParseOfEncoding(ENVELOPE, e.Items(), MAX_WIRE_OBJECT_BYTES);
    }
  }

  /** Every constructible envelope has an encoding, and it fits the sealed inbox's outer bound. */
  lemma EnvelopeAlwaysEncodes(e: OpaqueEnvelope)
    requires e.Constructible()
    ensures EncodeEnvelope(e).Ok?
    ensures 0 < |EncodeEnvelope(e).value| <= MAX_ENCODED_OPAQUE_ENVELOPE_BYTES
    ensures DecodeEnvelope(EncodeEnvelope(e).value) == Ok(e)
  {
    EnvelopeSize(e);
    EnvelopeCodec(e, EncodeEnvelope(e).value);
  }

  /** The re-encode comparison refuses exactly the well-formed inputs that hold a longer-than-needed head. */
  lemma EnvelopeNonDeterministic(input: Bytes)
    ensures DecodeEnvelope(input) == Err(NonDeterministicEncoding)
       <==> var r := Parse(ENVELOPE, MAX_WIRE_OBJECT_BYTES, input);
            r.Ok? && r.value.1 == |input| && !ShortestFrom(ENVELOPE, 0, input, 0)
  {
    var r := Parse(ENVELOPE, MAX_WIRE_OBJECT_BYTES, input);
    if r.Ok? && r.value.1 == |input| {
      ReencodingDecides(ENVELOPE, MAX_WIRE_OBJECT_BYTES, input);
      EnvelopeItemsOf(r.value.0);
      EnvelopeSize(OpaqueEnvelope(r.value.0[3].s, r.value.0[4].n, r.value.0[5].s));
    } else {
      ParseErrorIsNotNonDeterministic(ENVELOPE, 0, input, 0);
    }
  }

  lemma {:induction false} ParseErrorIsNotNonDeterministic(fields: seq<Field>, k: nat, input: Bytes, at: nat)
    requires k <= |fields|
    ensures DecodeFrom(fields, k, input, at) != Err(NonDeterministicEncoding)
    decreases |fields| - k
  {
    if k < |fields| {
      var r := DecodeField(fields[k], input, at);
      if r.Ok? {
        ParseErrorIsNotNonDeterministic(fields, k + 1, input, r.value.1);
      }
    }
  }

  // ---------- deposit endpoint ----------

  const ENDPOINT: seq<Field> := [
    ArrayOf(7),
    Code(1, UnsupportedVersion),
    Code(5, UnsupportedObjectType),
    Code(1, UnsupportedTransportProfile),
    Fixed(16, InvalidTransportInstanceIdLength),
    Fixed(16, InvalidMailboxIdLength),
    Fixed(32, InvalidDepositCapabilityLength),
    Time
  ]

  datatype DepositEndpoint =
    DepositEndpoint(transportInstanceId: Bytes, mailboxId: Bytes, capability: Bytes, expiresAt: u64)
  {
    predicate Constructible() {
      && |transportInstanceId| == 16 && !AllZero(transportInstanceId)
      && |mailboxId| == 16 && !AllZero(mailboxId)
      && |capability| == 32 && !AllZero(capability)
    }

    function Items(): seq<Item> {
      [Num(7), Num(1), Num(5), Num(1), Str(transportInstanceId), Str(mailboxId), Str(capability),
       Num(expiresAt)]
    }
  }

  function NewEndpoint(transportInstanceId: Bytes, mailboxId: Bytes, capability: Bytes, expiresAt: u64)
    : (r: Result<DepositEndpoint, WireError>)
    requires |transportInstanceId| == 16 && |mailboxId| == 16 && |capability| == 32
    ensures r.Ok? <==> DepositEndpoint(transportInstanceId, mailboxId, capability, expiresAt).Constructible()
  {
    if AllZero(capability) then Err(ZeroDepositCapability)
    else if AllZero(transportInstanceId) then Err(ZeroTransportInstanceId)
    else if AllZero(mailboxId) then Err(ZeroMailboxId)
    else Ok(DepositEndpoint(transportInstanceId, mailboxId, capability, expiresAt))
  }

  function EndpointOf(items: seq<Item>): Result<DepositEndpoint, WireError>
    requires AllConform(ENDPOINT, items)
  {
    assert Conforms(ENDPOINT[4], items[4]) && Conforms(ENDPOINT[5], items[5]);
    assert Conforms(ENDPOINT[6], items[6]) && Conforms(ENDPOINT[7], items[7]);
    NewEndpoint(items[4].s, items[5].s, items[6].s, items[7].n)
  }

  function EncodeEndpoint(p: DepositEndpoint): Result<Bytes, WireError>
    requires p.Constructible()
  {
    Bounded(EncodeFrom(ENDPOINT, p.Items(), 0), MAX_LOCAL_WELCOME_ENDPOINT_BYTES)
  }

  function DecodeEndpoint(input: Bytes): (r: Result<DepositEndpoint, WireError>)
    ensures r.Ok? ==> r.value.Constructible()
  {
    var (items, end) :- Parse(ENDPOINT, MAX_LOCAL_WELCOME_ENDPOINT_BYTES, input);
    var p :- EndpointOf(items);
    if end != |input| then Err(TrailingData)
    else
      var again :- EncodeEndpoint(p);
      if again != input then Err(NonDeterministicEncoding) else Ok(p)
  }

  lemma EndpointSize(p: DepositEndpoint)
    requires p.Constructible()
    ensures SizeFrom(p.Items(), 0) == 72 + HeadSize(p.expiresAt) <= MAX_LOCAL_WELCOME_ENDPOINT_BYTES
    ensures AllConform(ENDPOINT, p.Items()) && EndpointOf(p.Items()) == Ok(p)
  {
    var items := p.Items();
    assert SizeFrom(items, 8) == 0;
    assert SizeFrom(items, 6) == 34 + HeadSize(p.expiresAt);
    assert SizeFrom(items, 4) == 34 + SizeFrom(items, 6);
    assert SizeFrom(items, 2) == 2 + SizeFrom(items, 4);
  }

  /** Decoding accepts exactly the encodings of constructible endpoints, and every one encodes. */
  lemma EndpointCodec(p: DepositEndpoint, input: Bytes)
    ensures DecodeEndpoint(input) == Ok(p) <==> p.Constructible() && EncodeEndpoint(p) == Ok(input)
    ensures p.Constructible() ==> EncodeEndpoint(p).Ok?
  {
    if p.Constructible() {
      EndpointSize(p);
      ParseOfEncoding(ENDPOINT, p.Items(), MAX_LOCAL_WELCOME_ENDPOINT_BYTES);
    }
  }

  // ---------- protected join request ----------

  const PROTECTED: seq<Field> := [
    ArrayOf(7),
    Code(1, UnsupportedVersion),
    Code(3, UnsupportedObjectType),
    Code(1, UnsupportedInvitationEncryptionSuite),
    Fixed(16, InvalidInvitationIdLength),
    Fixed(16, InvalidInvitationKeyIdLength),
    Fixed(32, InvalidHpkeEncapsulatedKeyLength),
    Blob(1, MAX_PROTECTED_JOIN_CIPHERTEXT_BYTES, EmptyProtectedJoinCiphertext, ProtectedJoinCiphertextTooLarge)
  ]

  datatype ProtectedJoinRequest =
    ProtectedJoinRequest(invitationId: Bytes, invitationKeyId: Bytes, encapsulatedKey: Bytes, ciphertext: Bytes)
  {
    predicate Constructible() {
      && |invitationId| == 16 && !AllZero(invitationId)
      && |invitationKeyId| == 16 && !AllZero(invitationKeyId)
      && |encapsulatedKey| == 32
      && 1 <= |ciphertext| <= MAX_PROTECTED_JOIN_CIPHERTEXT_BYTES
    }

    function Items(): seq<Item> {
      [Num(7), Num(1), Num(3), Num(1), Str(invitationId), Str(invitationKeyId), Str(encapsulatedKey),
       Str(ciphertext)]
    }
  }

  function NewProtected(invitationId: Bytes, invitationKeyId: Bytes, encapsulatedKey: Bytes, ciphertext: Bytes)
    : (r: Result<ProtectedJoinRequest, WireError>)
    requires |invitationId| == 16 && |invitationKeyId| == 16 && |encapsulatedKey| == 32
    ensures r.Ok? <==> ProtectedJoinRequest(invitationId, invitationKeyId, encapsulatedKey, ciphertext).Constructible()
  {
    if AllZero(invitationId) then Err(ZeroInvitationId)
    else if AllZero(invitationKeyId) then Err(ZeroInvitationKeyId)
    else if ciphertext == [] then Err(Refused(EmptyProtectedJoinCiphertext, 0))
    else if |ciphertext| > MAX_PROTECTED_JOIN_CIPHERTEXT_BYTES then
      Err(Refused(ProtectedJoinCiphertextTooLarge, |ciphertext|))
    else Ok(ProtectedJoinRequest(invitationId, invitationKeyId, encapsulatedKey, ciphertext))
  }

  function EncodeProtected(q: ProtectedJoinRequest): Result<Bytes, WireError>
    requires q.Constructible()
  {
    Bounded(EncodeFrom(PROTECTED, q.Items(), 0), MAX_PROTECTED_JOIN_REQUEST_BYTES)
  }

  function DecodeProtected(input: Bytes): (r: Result<ProtectedJoinRequest, WireError>)
    ensures r.Ok? ==> r.value.Constructible()
  {
    var (items, end) :- Parse(PROTECTED, MAX_PROTECTED_JOIN_REQUEST_BYTES, input);
    if end != |input| then Err(TrailingData)
    else
      assert Conforms(PROTECTED[4], items[4]) && Conforms(PROTECTED[5], items[5]);
      assert Conforms(PROTECTED[6], items[6]) && Conforms(PROTECTED[7], items[7]);
      var q :- NewProtected(items[4].s, items[5].s, items[6].s, items[7].s);
      var again :- EncodeProtected(q);
      if again != input then Err(NonDeterministicEncoding) else Ok(q)
  }

  /** The 75-byte overhead is exact for long ciphertexts, so the largest one fills the bound to the byte. */
  lemma ProtectedSize(q: ProtectedJoinRequest)
    requires q.Constructible()
    ensures SizeFrom(q.Items(), 0) == 72 + HeadSize(|q.ciphertext|) + |q.ciphertext| <= MAX_PROTECTED_JOIN_REQUEST_BYTES
    ensures SizeFrom(q.Items(), 0) == MAX_PROTECTED_JOIN_REQUEST_BYTES
       <==> |q.ciphertext| == MAX_PROTECTED_JOIN_CIPHERTEXT_BYTES
  {
    var items := q.Items();
    assert SizeFrom(items, 8) == 0;
    assert SizeFrom(items, 6) == 34 + HeadSize(|q.ciphertext|) + |q.ciphertext|;
    assert SizeFrom(items, 4) == 34 + SizeFrom(items, 6);
    assert SizeFrom(items, 2) == 2 + SizeFrom(items, 4);
  }

  /** Decoding accepts exactly the encodings of constructible requests, and every one encodes. */
  lemma ProtectedCodec(q: ProtectedJoinRequest, input: Bytes)
    ensures DecodeProtected(input) == Ok(q) <==> q.Constructible() && EncodeProtected(q) == Ok(input)
    ensures q.Constructible() ==> EncodeProtected(q).Ok?
  {
    if q.Constructible() {
      ProtectedSize(q);
      ParseOfEncoding(PROTECTED, q.Items(), MAX_PROTECTED_JOIN_REQUEST_BYTES);
    }
  }

  // ---------- inner capability join request, with its nested endpoint ----------

  /** Which 32-byte strings are verifying keys that parse and are not weak. */
  type KeyCheck = Bytes -> bool

  const CAPABILITY_OUTER: seq<Field> := [
    ArrayOf(21),
    Code(1, UnsupportedVersion),
    Code(4, UnsupportedObjectType),
    Code(1, UnsupportedAdmissionProofVersion),
    Fixed(16, InvalidInvitationIdLength),
    Fixed(32, InvalidJoinChallengeLength),
    Fixed(16, InvalidInvitationKeyIdLength),
    Fixed(32, InvalidVerifyingKeyLength),
    Fixed(16, InvalidJoinRequestIdLength),
    Time,
    Time,
    Fixed(32, InvalidRequestNonceLength),
    Code(1, UnsupportedMlsProtocolVersion),
    Code(1, UnsupportedMlsCiphersuite),
    Fixed(32, InvalidKeyPackageReferenceLength),
    Blob(1, MAX_JOIN_KEY_PACKAGE_BYTES, EmptyKeyPackage, KeyPackageTooLarge),
    Code(1, UnsupportedCredentialType),
    Fixed(32, InvalidCredentialIdentityLength),
    Fixed(32, InvalidLeafSignatureKeyLength),
    Code(1, UnsupportedApplicationProtocolVersion),
    Code(1, UnsupportedTransportProfile)
  ]

  const CAPABILITY: seq<Field> := CAPABILITY_OUTER + ENDPOINT

  datatype CapabilityJoinRequest = CapabilityJoinRequest(
    invitationId: Bytes, joinChallenge: Bytes, invitationKeyId: Bytes, intendedVerifier: Bytes,
    joinRequestId: Bytes, issuedAt: u64, expiresAt: u64, requestNonce: Bytes,
    keyPackageReference: Bytes, keyPackage: Bytes, credentialIdentity: Bytes, leafSignatureKey: Bytes,
    endpoint: DepositEndpoint)
  {
    predicate Shaped() {
      && |invitationId| == 16 && |joinChallenge| == 32 && |invitationKeyId| == 16
      && |intendedVerifier| == 32 && |joinRequestId| == 16 && |requestNonce| == 32
      && |keyPackageReference| == 32 && |credentialIdentity| == 32 && |leafSignatureKey| == 32
      && endpoint.Constructible()
    }

    predicate Constructible(usable: KeyCheck) {
      && Shaped()
      && !AllZero(invitationId) && !AllZero(joinChallenge) && !AllZero(invitationKeyId)
      && usable(intendedVerifier)
      && !AllZero(joinRequestId) && !AllZero(requestNonce) && issuedAt < expiresAt
      && 1 <= |keyPackage| <= MAX_JOIN_KEY_PACKAGE_BYTES
      && !AllZero(credentialIdentity) && !AllZero(leafSignatureKey) && usable(leafSignatureKey)
      && endpoint.expiresAt <= expiresAt
    }

    function OuterItems(): seq<Item> {
      [Num(21), Num(1), Num(4), Num(1), Str(invitationId), Str(joinChallenge), Str(invitationKeyId),
       Str(intendedVerifier), Str(joinRequestId), Num(issuedAt), Num(expiresAt), Str(requestNonce),
       Num(1), Num(1), Str(keyPackageReference), Str(keyPackage), Num(1), Str(credentialIdentity),
       Str(leafSignatureKey), Num(1), Num(1)]
    }

    function Items(): seq<Item> {
      OuterItems() + endpoint.Items()
    }
  }

  /** The four nested constructors in the order the decoder runs them. */
  function NewCapability(q: CapabilityJoinRequest, usable: KeyCheck): (r: Result<CapabilityJoinRequest, WireError>)
    requires q.Shaped()
    ensures r.Ok? <==> q.Constructible(usable)
    ensures r.Ok? ==> r.value == q
  {
    if AllZero(q.invitationId) then Err(ZeroInvitationId)
    else if AllZero(q.joinChallenge) then Err(ZeroJoinChallenge)
    else if AllZero(q.invitationKeyId) then Err(ZeroInvitationKeyId)
    else if !usable(q.intendedVerifier) then Err(InvalidVerifyingKey)
    else if AllZero(q.joinRequestId) then Err(ZeroJoinRequestId)
    else if AllZero(q.requestNonce) then Err(ZeroRequestNonce)
    else if q.expiresAt <= q.issuedAt then Err(InvalidJoinRequestTimeRange)
    else if q.keyPackage == [] then Err(Refused(EmptyKeyPackage, 0))
    else if |q.keyPackage| > MAX_JOIN_KEY_PACKAGE_BYTES then Err(Refused(KeyPackageTooLarge, |q.keyPackage|))
    else if AllZero(q.credentialIdentity) then Err(ZeroCredentialIdentity)
    else if AllZero(q.leafSignatureKey) then Err(ZeroLeafSignatureKey)
    else if !usable(q.leafSignatureKey) then Err(InvalidLeafSignatureKey)
    else if q.endpoint.expiresAt > q.expiresAt then Err(ResponseEndpointOutlivesRequest)
    else Ok(q)
  }

  function EncodeCapability(q: CapabilityJoinRequest): Result<Bytes, WireError>
    requires q.Shaped() && |q.keyPackage| < U64_LIMIT
  {
    CapabilityItemsEncodable(q);
    Bounded(EncodeFrom(CAPABILITY, q.Items(), 0), MAX_CAPABILITY_JOIN_REQUEST_BYTES)
  }

  lemma CapabilityItemsEncodable(q: CapabilityJoinRequest)
    requires q.Shaped() && |q.keyPackage| < U64_LIMIT
    ensures Encodable(q.Items())
  {
    assert Encodable(q.OuterItems()) && Encodable(q.endpoint.Items());
  }

  /** The request a parsed outer item list stands for, before any value check. */
  function CapabilityFrom(items: seq<Item>, endpoint: DepositEndpoint): (q: CapabilityJoinRequest)
    requires AllConform(CAPABILITY_OUTER, items) && endpoint.Constructible()
    ensures q.Shaped() && |q.keyPackage| < U64_LIMIT
  {
    assert Conforms(CAPABILITY_OUTER[4], items[4]) && Conforms(CAPABILITY_OUTER[5], items[5]);
    assert Conforms(CAPABILITY_OUTER[6], items[6]) && Conforms(CAPABILITY_OUTER[7], items[7]);
    assert Conforms(CAPABILITY_OUTER[8], items[8]) && Conforms(CAPABILITY_OUTER[9], items[9]);
    assert Conforms(CAPABILITY_OUTER[10], items[10]) && Conforms(CAPABILITY_OUTER[11], items[11]);
    assert Conforms(CAPABILITY_OUTER[14], items[14]) && Conforms(CAPABILITY_OUTER[15], items[15]);
    assert Conforms(CAPABILITY_OUTER[17], items[17]) && Conforms(CAPABILITY_OUTER[18], items[18]);
    CapabilityJoinRequest(
      items[4].s, items[5].s, items[6].s, items[7].s, items[8].s, items[9].n, items[10].n, items[11].s,
      items[14].s, items[15].s, items[17].s, items[18].s, endpoint)
  }

  lemma ConformSplit(left: seq<Field>, right: seq<Field>, items: seq<Item>)
    requires |items| == |left| + |right|
    ensures AllConform(left + right, items)
       <==> AllConform(left, items[..|left|]) && AllConform(right, items[|left|..])
  {
    if AllConform(left, items[..|left|]) && AllConform(right, items[|left|..]) {
      forall k | 0 <= k < |left + right| ensures Conforms((left + right)[k], items[k]) {
        if k >= |left| {
          assert items[k] == items[|left|..][k - |left|];
        }
      }
    }
    if AllConform(left + right, items) {
      forall k | 0 <= k < |left| ensures Conforms(left[k], items[..|left|][k]) {
        assert (left + right)[k] == left[k];
      }
      forall k | 0 <= k < |right| ensures Conforms(right[k], items[|left|..][k]) {
        assert (left + right)[|left| + k] == right[k];
      }
    }
  }

  function DecodeCapability(input: Bytes, usable: KeyCheck): (r: Result<CapabilityJoinRequest, WireError>)
    ensures r.Ok? ==> r.value.Constructible(usable)
  {
    var (items, end) :- Parse(CAPABILITY, MAX_CAPABILITY_JOIN_REQUEST_BYTES, input);
    ConformSplit(CAPABILITY_OUTER, ENDPOINT, items);
    var endpoint :- EndpointOf(items[21..]);
    if end != |input| then Err(TrailingData)
    else AcceptCapability(CapabilityFrom(items[..21], endpoint), input, usable)
  }

  /** The value checks and the re-encode comparison. */
  function AcceptCapability(q: CapabilityJoinRequest, input: Bytes, usable: KeyCheck)
    : (r: Result<CapabilityJoinRequest, WireError>)
    requires q.Shaped() && |q.keyPackage| < U64_LIMIT
    ensures r.Ok? <==> q.Constructible(usable) && EncodeCapability(q) == Ok(input)
    ensures r.Ok? ==> r.value == q
  {
    var accepted :- NewCapability(q, usable);
    var again :- EncodeCapability(accepted);
    if again != input then Err(NonDeterministicEncoding) else Ok(accepted)
  }

  lemma CapabilityConforms(q: CapabilityJoinRequest, usable: KeyCheck)
    requires q.Constructible(usable)
    ensures AllConform(CAPABILITY, q.Items()) && AllConform(CAPABILITY_OUTER, q.OuterItems())
    ensures q.Items()[..21] == q.OuterItems() && q.Items()[21..] == q.endpoint.Items()
    ensures CapabilityFrom(q.OuterItems(), q.endpoint) == q
  {
    EndpointSize(q.endpoint);
    ConformSplit(CAPABILITY_OUTER, ENDPOINT, q.Items());
  }

  lemma {:induction false} SizeOfSuffix(left: seq<Item>, right: seq<Item>, k: nat)
    requires Encodable(left + right) && Encodable(right) && |left| <= k <= |left| + |right|
    ensures SizeFrom(left + right, k) == SizeFrom(right, k - |left|)
    decreases |left| + |right| - k
  {
    if k < |left| + |right| {
      SizeOfSuffix(left, right, k + 1);
    }
  }

  lemma CapabilityTailSize(q: CapabilityJoinRequest, usable: KeyCheck)
    requires q.Constructible(usable)
    ensures SizeFrom(q.Items(), 11)
         == 213 + HeadSize(|q.keyPackage|) + |q.keyPackage| + HeadSize(q.endpoint.expiresAt)
  {
    CapabilityItemsEncodable(q);
    var items := q.Items();
    EndpointSize(q.endpoint);
    SizeOfSuffix(q.OuterItems(), q.endpoint.Items(), 21);
    assert SizeFrom(items, 19) == 2 + SizeFrom(items, 21);
    assert SizeFrom(items, 17) == 68 + SizeFrom(items, 19);
    assert SizeFrom(items, 15) == HeadSize(|q.keyPackage|) + |q.keyPackage| + 1 + SizeFrom(items, 17);
    assert SizeFrom(items, 13) == 35 + SizeFrom(items, 15);
  }

  lemma CapabilitySize(q: CapabilityJoinRequest, usable: KeyCheck)
    requires q.Constructible(usable)
    ensures Encodable(q.Items())
    ensures SizeFrom(q.Items(), 0)
         == 336 + HeadSize(q.issuedAt) + HeadSize(q.expiresAt) + HeadSize(|q.keyPackage|) + |q.keyPackage|
            + HeadSize(q.endpoint.expiresAt)
    ensures SizeFrom(q.Items(), 0) <= MAX_CAPABILITY_JOIN_REQUEST_BYTES
  {
    CapabilityItemsEncodable(q);
    CapabilityTailSize(q, usable);
    var items := q.Items();
    assert SizeFrom(items, 9) == HeadSize(q.issuedAt) + HeadSize(q.expiresAt) + SizeFrom(items, 11);
    assert SizeFrom(items, 7) == 51 + SizeFrom(items, 9);
    assert SizeFrom(items, 5) == 51 + SizeFrom(items, 7);
    assert SizeFrom(items, 3) == 18 + SizeFrom(items, 5);
    assert SizeFrom(items, 1) == 2 + SizeFrom(items, 3);
    assert SizeFrom(items, 0) == 1 + SizeFrom(items, 1);
  }

  /** Decoding accepts exactly the encodings of constructible requests, nested endpoint included. */
  lemma CapabilityCodec(q: CapabilityJoinRequest, usable: KeyCheck, input: Bytes)
    ensures DecodeCapability(input, usable) == Ok(q)
       <==> q.Constructible(usable) && EncodeCapability(q) == Ok(input)
    ensures q.Constructible(usable) ==> EncodeCapability(q).Ok?
  {
    if q.Constructible(usable) {
      CapabilitySize(q, usable);
      CapabilityConforms(q, usable);
      EndpointSize(q.endpoint);
      ParseOfEncoding(CAPABILITY, q.Items(), MAX_CAPABILITY_JOIN_REQUEST_BYTES);
    }
  }
}
