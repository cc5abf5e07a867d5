/** Signed capability invitations, versions 1 and 2, under an abstract signature scheme. */
module Invitation {
  import opened Common
  import opened Cbor
  import opened WireObjects

  const MAX_SIGNED_INVITATION_BYTES: nat := 512

  /** "session-chat/signed-invitation/v1" and a zero byte. */
  const DOMAIN_V1: Bytes := [
    115, 101, 115, 115, 105, 111, 110, 45, 99, 104, 97, 116, 47, 115, 105, 103, 110, 101, 100, 45, 105,
    110, 118, 105, 116, 97, 116, 105, 111, 110, 47, 118, 49, 0]

  /** "session-chat/signed-invitation/v2" and a zero byte. */
  const DOMAIN_V2: Bytes := [
    115, 101, 115, 115, 105, 111, 110, 45, 99, 104, 97, 116, 47, 115, 105, 103, 110, 101, 100, 45, 105,
    110, 118, 105, 116, 97, 116, 105, 111, 110, 47, 118, 50, 0]

  /** Which byte strings are verifying keys, and which signatures verify under them. */
  datatype Scheme = Scheme(isKey: Bytes -> bool, verifies: (Bytes, Bytes, Bytes) -> bool)

  datatype Claims = Claims(invitationId: Bytes, issuedAt: u64, expiresAt: u64, challenge: Bytes, capability: Bytes) {
    predicate Shaped() {
      |invitationId| == 16 && |challenge| == 32 && |capability| == 32
    }

    predicate Constructible() {
      && Shaped() && !AllZero(invitationId) && !AllZero(challenge) && !AllZero(capability)
      && issuedAt < expiresAt
    }
  }

  /** The claim checks in the order the decoder makes them. */
  function CheckClaims(c: Claims): (r: Result<(), WireError>)
    requires c.Shaped()
    ensures r.Ok? <==> c.Constructible()
  {
    if AllZero(c.capability) then Err(ZeroSecretCapability)
    else if AllZero(c.invitationId) then Err(ZeroInvitationId)
    else if AllZero(c.challenge) then Err(ZeroJoinChallenge)
    else if c.expiresAt <= c.issuedAt then Err(InvalidInvitationTimeRange)
    else Ok(())
  }

  // ---------- version 1 ----------

  const UNSIGNED_V1: seq<Field> := [
    ArrayOf(11),
    Code(1, UnsupportedVersion),
    Code(2, UnsupportedObjectType),
    Code(1, UnsupportedSignatureSuite),
    Fixed(16, InvalidInvitationIdLength),
    Time,
    Time,
    Code(1, UnsupportedAdmissionMode),
    Code(1, UnsupportedInvitationUsePolicy),
    Fixed(32, InvalidJoinChallengeLength),
    Fixed(32, InvalidSecretCapabilityLength),
    Fixed(32, InvalidVerifyingKeyLength)
  ]

  const SIGNED_V1: seq<Field> := [
    ArrayOf(12),
    Code(1, UnsupportedVersion),
    Code(2, UnsupportedObjectType),
    Code(1, UnsupportedSignatureSuite),
    Fixed(16, InvalidInvitationIdLength),
    Time,
    Time,
    Code(1, UnsupportedAdmissionMode),
    Code(1, UnsupportedInvitationUsePolicy),
    Fixed(32, InvalidJoinChallengeLength),
    Fixed(32, InvalidSecretCapabilityLength),
    Fixed(32, InvalidVerifyingKeyLength),
    Fixed(64, InvalidSignatureLength)
  ]

  datatype InvitationV1 = InvitationV1(claims: Claims, key: Bytes, signature: Bytes) {
    predicate Shaped() {
      claims.Shaped() && |key| == 32 && |signature| == 64
    }

    predicate Constructible() {
      Shaped() && claims.Constructible()
    }

    function UnsignedItems(): seq<Item> {
      [Num(11), Num(1), Num(2), Num(1), Str(claims.invitationId), Num(claims.issuedAt), Num(claims.expiresAt),
       Num(1), Num(1), Str(claims.challenge), Str(claims.capability), Str(key)]
    }

    function Items(): seq<Item> {
      [Num(12), Num(1), Num(2), Num(1), Str(claims.invitationId), Num(claims.issuedAt), Num(claims.expiresAt),
       Num(1), Num(1), Str(claims.challenge), Str(claims.capability), Str(key), Str(signature)]
    }
  }

  function SigningInputV1(v: InvitationV1): Bytes
    requires v.Shaped()
  {
    DOMAIN_V1 + EncodeFrom(UNSIGNED_V1, v.UnsignedItems(), 0)
  }

  predicate SignedV1(v: InvitationV1, scheme: Scheme)
    requires v.Shaped()
  {
    scheme.isKey(v.key) && scheme.verifies(v.key, SigningInputV1(v), v.signature)
  }

  function EncodeV1(v: InvitationV1): Result<Bytes, WireError>
    requires v.Shaped()
  {
    Bounded(EncodeFrom(SIGNED_V1, v.Items(), 0), MAX_SIGNED_INVITATION_BYTES)
  }

  function FromItemsV1(items: seq<Item>): (v: InvitationV1)
    requires AllConform(SIGNED_V1, items)
    ensures v.Shaped() && v.Items() == items
  {
    assert forall k :: 0 <= k < 13 ==> Conforms(SIGNED_V1[k], items[k]);
    InvitationV1(Claims(items[4].s, items[5].n, items[6].n, items[9].s, items[10].s), items[11].s, items[12].s)
  }

  /** Claims, re-encoding, key and signature, in that order. */
  function AcceptV1(v: InvitationV1, input: Bytes, scheme: Scheme): (r: Result<InvitationV1, WireError>)
    requires v.Shaped()
    ensures r.Ok? <==> v.Constructible() && EncodeV1(v) == Ok(input) && SignedV1(v, scheme)
    ensures r.Ok? ==> r.value == v
  {
    var checked :- CheckClaims(v.claims);
    var again :- EncodeV1(v);
    if again != input then Err(NonDeterministicEncoding)
    else if !scheme.isKey(v.key) then Err(InvalidVerifyingKey)
    else if !scheme.verifies(v.key, SigningInputV1(v), v.signature) then Err(InvalidSignature)
    else Ok(v)
  }

  function DecodeV1(input: Bytes, scheme: Scheme): Result<InvitationV1, WireError> {
    var (items, end) :- Parse(SIGNED_V1, MAX_SIGNED_INVITATION_BYTES, input);
    if end != |input| then Err(TrailingData) else AcceptV1(FromItemsV1(items), input, scheme)
  }

  lemma ConformsV1(v: InvitationV1)
    requires v.Shaped()
    ensures AllConform(SIGNED_V1, v.Items()) && Encodable(v.Items())
    ensures AllConform(UNSIGNED_V1, v.UnsignedItems()) && Encodable(v.UnsignedItems())
  {
  }

  /** Every shaped invitation fits the 512-byte bound. */
  lemma SizeV1(v: InvitationV1)
    requires v.Shaped()
    ensures SizeFrom(v.Items(), 0) <= 209 < MAX_SIGNED_INVITATION_BYTES
  {
    ConformsV1(v);
    var items := v.Items();
    assert SizeFrom(items, 13) == 0;
    assert SizeFrom(items, 11) == 100;
    assert SizeFrom(items, 9) == 168;
    assert SizeFrom(items, 7) == 170;
    assert SizeFrom(items, 5) <= 188;
    assert SizeFrom(items, 3) <= 206;
    assert SizeFrom(items, 1) <= 208;
  }

  /** Decoding accepts exactly the encodings of constructible invitations whose signature verifies. */
  lemma CodecV1(v: InvitationV1, input: Bytes, scheme: Scheme)
    ensures DecodeV1(input, scheme) == Ok(v)
            <==> v.Constructible() && EncodeV1(v) == Ok(input) && SignedV1(v, scheme)
    ensures v.Shaped() ==> EncodeV1(v).Ok?
  {
    hide EncodeFrom, DecodeFrom, SigningInputV1;
    if v.Shaped() {
      ConformsV1(v);
      SizeV1(v);
      ParseOfEncoding(SIGNED_V1, v.Items(), MAX_SIGNED_INVITATION_BYTES);
      if EncodeV1(v) == Ok(input) {
        SameItemsV1(v, FromItemsV1(v.Items()));
      }
    }
  }

  lemma SameItemsV1(a: InvitationV1, b: InvitationV1)
    requires a.Items() == b.Items() || a.UnsignedItems() == b.UnsignedItems()
    ensures a.claims == b.claims && a.key == b.key
    ensures a.Items() == b.Items() ==> a == b
  {
    if a.Items() == b.Items() {
      assert a.Items()[4] == b.Items()[4] && a.Items()[5] == b.Items()[5] && a.Items()[6] == b.Items()[6];
      assert a.Items()[9] == b.Items()[9] && a.Items()[10] == b.Items()[10];
      assert a.Items()[11] == b.Items()[11] && a.Items()[12] == b.Items()[12];
    } else {
      var x := a.UnsignedItems();
      var y := b.UnsignedItems();
      assert x[4] == y[4] && x[5] == y[5] && x[6] == y[6] && x[9] == y[9] && x[10] == y[10] && x[11] == y[11];
    }
  }

  // ---------- version 2 ----------

  const UNSIGNED_V2: seq<Field> := [
    ArrayOf(17),
    Code(2, UnsupportedVersion),
    Code(2, UnsupportedObjectType),
    Code(1, UnsupportedSignatureSuite),
    Code(1, UnsupportedInvitationEncryptionSuite),
    Code(1, UnsupportedJoinRequestSchema),
    Code(1, UnsupportedApplicationProtocolVersion),
    Code(1, UnsupportedTransportProfile),
    Fixed(16, InvalidInvitationIdLength),
    Time,
    Time,
    Code(1, UnsupportedAdmissionMode),
    Code(1, UnsupportedInvitationUsePolicy),
    Fixed(32, InvalidJoinChallengeLength),
    Fixed(32, InvalidSecretCapabilityLength),
    Fixed(32, InvalidVerifyingKeyLength),
    Fixed(16, InvalidInvitationKeyIdLength),
    Fixed(32, InvalidHpkePublicKeyLength)
  ]

  const SIGNED_V2: seq<Field> := [
    ArrayOf(18),
    Code(2, UnsupportedVersion),
    Code(2, UnsupportedObjectType),
    Code(1, UnsupportedSignatureSuite),
    Code(1, UnsupportedInvitationEncryptionSuite),
    Code(1, UnsupportedJoinRequestSchema),
    Code(1, UnsupportedApplicationProtocolVersion),
    Code(1, UnsupportedTransportProfile),
    Fixed(16, InvalidInvitationIdLength),
    Time,
    Time,
    Code(1, UnsupportedAdmissionMode),
    Code(1, UnsupportedInvitationUsePolicy),
    Fixed(32, InvalidJoinChallengeLength),
    Fixed(32, InvalidSecretCapabilityLength),
    Fixed(32, InvalidVerifyingKeyLength),
    Fixed(16, InvalidInvitationKeyIdLength),
    Fixed(32, InvalidHpkePublicKeyLength),
    Fixed(64, InvalidSignatureLength)
  ]

  datatype InvitationV2 = InvitationV2(claims: Claims, key: Bytes, keyId: Bytes, hpkeKey: Bytes, signature: Bytes) {
    predicate Shaped() {
      claims.Shaped() && |key| == 32 && |keyId| == 16 && |hpkeKey| == 32 && |signature| == 64
    }

    predicate Constructible() {
      Shaped() && claims.Constructible() && !AllZero(keyId) && !AllZero(hpkeKey)
    }

    function UnsignedItems(): seq<Item> {
      [Num(17), Num(2), Num(2), Num(1), Num(1), Num(1), Num(1), Num(1), Str(claims.invitationId),
       Num(claims.issuedAt), Num(claims.expiresAt), Num(1), Num(1), Str(claims.challenge), Str(claims.capability),
       Str(key), Str(keyId), Str(hpkeKey)]
    }

    function Items(): seq<Item> {
      [Num(18), Num(2), Num(2), Num(1), Num(1), Num(1), Num(1), Num(1), Str(claims.invitationId),
       Num(claims.issuedAt), Num(claims.expiresAt), Num(1), Num(1), Str(claims.challenge), Str(claims.capability),
       Str(key), Str(keyId), Str(hpkeKey), Str(signature)]
    }
  }

  function SigningInputV2(v: InvitationV2): Bytes
    requires v.Shaped()
  {
    DOMAIN_V2 + EncodeFrom(UNSIGNED_V2, v.UnsignedItems(), 0)
  }

  predicate SignedV2(v: InvitationV2, scheme: Scheme)
    requires v.Shaped()
  {
    scheme.isKey(v.key) && scheme.verifies(v.key, SigningInputV2(v), v.signature)
  }

  function EncodeV2(v: InvitationV2): Result<Bytes, WireError>
    requires v.Shaped()
  {
    Bounded(EncodeFrom(SIGNED_V2, v.Items(), 0), MAX_SIGNED_INVITATION_BYTES)
  }

  function FromItemsV2(items: seq<Item>): (v: InvitationV2)
    requires AllConform(SIGNED_V2, items)
    ensures v.Shaped() && v.Items() == items
  {
    assert forall k :: 0 <= k < 19 ==> Conforms(SIGNED_V2[k], items[k]);
    InvitationV2(Claims(items[8].s, items[9].n, items[10].n, items[13].s, items[14].s),
                 items[15].s, items[16].s, items[17].s, items[18].s)
  }

  function AcceptV2(v: InvitationV2, input: Bytes, scheme: Scheme): (r: Result<InvitationV2, WireError>)
    requires v.Shaped()
    ensures r.Ok? <==> v.Constructible() && EncodeV2(v) == Ok(input) && SignedV2(v, scheme)
    ensures r.Ok? ==> r.value == v
  {
    var checked :- CheckClaims(v.claims);
    if AllZero(v.keyId) then Err(ZeroInvitationKeyId)
    else if AllZero(v.hpkeKey) then Err(ZeroHpkePublicKey)
    else
      var again :- EncodeV2(v);
      if again != input then Err(NonDeterministicEncoding)
      else if !scheme.isKey(v.key) then Err(InvalidVerifyingKey)
      else if !scheme.verifies(v.key, SigningInputV2(v), v.signature) then Err(InvalidSignature)
      else Ok(v)
  }

  function DecodeV2(input: Bytes, scheme: Scheme): Result<InvitationV2, WireError> {
    var (items, end) :- Parse(SIGNED_V2, MAX_SIGNED_INVITATION_BYTES, input);
    if end != |input| then Err(TrailingData) else AcceptV2(FromItemsV2(items), input, scheme)
  }

  lemma ConformsV2(v: InvitationV2)
    requires v.Shaped()
    ensures AllConform(SIGNED_V2, v.Items()) && Encodable(v.Items())
    ensures AllConform(UNSIGNED_V2, v.UnsignedItems()) && Encodable(v.UnsignedItems())
  {
  }

  lemma SizeV2(v: InvitationV2)
    requires v.Shaped()
    ensures SizeFrom(v.Items(), 0) <= 264 < MAX_SIGNED_INVITATION_BYTES
  {
    ConformsV2(v);
    var items := v.Items();
    assert SizeFrom(items, 19) == 0;
    assert SizeFrom(items, 17) == 100;
    assert SizeFrom(items, 15) == 151;
    assert SizeFrom(items, 13) == 219;
    assert SizeFrom(items, 11) == 221;
    assert SizeFrom(items, 9) <= 239;
    assert SizeFrom(items, 7) <= 257;
    assert SizeFrom(items, 5) <= 259;
    assert SizeFrom(items, 3) <= 261;
    assert SizeFrom(items, 1) <= 263;
  }

  lemma CodecV2(v: InvitationV2, input: Bytes, scheme: Scheme)
    ensures DecodeV2(input, scheme) == Ok(v)
            <==> v.Constructible() && EncodeV2(v) == Ok(input) && SignedV2(v, scheme)
    ensures v.Shaped() ==> EncodeV2(v).Ok?
  {
    hide EncodeFrom, DecodeFrom, SigningInputV2;
    if v.Shaped() {
      ConformsV2(v);
      SizeV2(v);
      ParseOfEncoding(SIGNED_V2, v.Items(), MAX_SIGNED_INVITATION_BYTES);
      if EncodeV2(v) == Ok(input) {
        SameItemsV2(v, FromItemsV2(v.Items()));
      }
    }
  }

  lemma SameItemsV2(a: InvitationV2, b: InvitationV2)
    requires a.Items() == b.Items() || a.UnsignedItems() == b.UnsignedItems()
    ensures a.claims == b.claims && a.key == b.key && a.keyId == b.keyId && a.hpkeKey == b.hpkeKey
    ensures a.Items() == b.Items() ==> a == b
  {
    if a.Items() == b.Items() {
      assert a.Items()[8] == b.Items()[8] && a.Items()[9] == b.Items()[9] && a.Items()[10] == b.Items()[10];
      assert a.Items()[13] == b.Items()[13] && a.Items()[14] == b.Items()[14] && a.Items()[15] == b.Items()[15];
      assert a.Items()[16] == b.Items()[16] && a.Items()[17] == b.Items()[17] && a.Items()[18] == b.Items()[18];
    } else {
      var x := a.UnsignedItems();
      var y := b.UnsignedItems();
      assert x[8] == y[8] && x[9] == y[9] && x[10] == y[10] && x[13] == y[13] && x[14] == y[14] && x[15] == y[15];
      assert x[16] == y[16] && x[17] == y[17];
    }
  }

  // ---------- what is signed ----------

  /** A field list is read back from its encoding, so equal encodings carry equal items. */
  lemma EncodingIsInjective(fields: seq<Field>, a: seq<Item>, b: seq<Item>)
    requires AllConform(fields, a) && Encodable(a) && AllConform(fields, b) && Encodable(b)
    requires EncodeFrom(fields, a, 0) == EncodeFrom(fields, b, 0)
    ensures a == b
  {
    hide EncodeFrom, SizeFrom, DecodeFrom, Conforms;
    var encoded := EncodeFrom(fields, a, 0);
    assert encoded[0..|encoded|] == encoded;
    ListRoundTrip(fields, a, 0, encoded, 0);
    ListRoundTrip(fields, b, 0, encoded, 0);
    assert a[0..] == a && b[0..] == b;
  }

  /** A signing input determines every signed claim and the key. */
  lemma SigningInputV1IsInjective(a: InvitationV1, b: InvitationV1)
    requires a.Shaped() && b.Shaped() && SigningInputV1(a) == SigningInputV1(b)
    ensures a.claims == b.claims && a.key == b.key
  {
    ConformsV1(a);
    ConformsV1(b);
    hide EncodeFrom;
    assert SigningInputV1(a)[|DOMAIN_V1|..] == EncodeFrom(UNSIGNED_V1, a.UnsignedItems(), 0);
    assert SigningInputV1(b)[|DOMAIN_V1|..] == EncodeFrom(UNSIGNED_V1, b.UnsignedItems(), 0);
    EncodingIsInjective(UNSIGNED_V1, a.UnsignedItems(), b.UnsignedItems());
    SameItemsV1(a, b);
  }

  lemma SigningInputV2IsInjective(a: InvitationV2, b: InvitationV2)
    requires a.Shaped() && b.Shaped() && SigningInputV2(a) == SigningInputV2(b)
    ensures a.claims == b.claims && a.key == b.key && a.keyId == b.keyId && a.hpkeKey == b.hpkeKey
  {
    ConformsV2(a);
    ConformsV2(b);
    hide EncodeFrom;
    assert SigningInputV2(a)[|DOMAIN_V2|..] == EncodeFrom(UNSIGNED_V2, a.UnsignedItems(), 0);
    assert SigningInputV2(b)[|DOMAIN_V2|..] == EncodeFrom(UNSIGNED_V2, b.UnsignedItems(), 0);
    EncodingIsInjective(UNSIGNED_V2, a.UnsignedItems(), b.UnsignedItems());
    SameItemsV2(a, b);
  }

  /** No version 1 signature is ever over the bytes of a version 2 invitation. */
  lemma SigningInputsNeverCoincide(a: InvitationV1, b: InvitationV2)
    requires a.Shaped() && b.Shaped()
    ensures SigningInputV1(a) != SigningInputV2(b)
  {
    hide EncodeFrom;
    assert SigningInputV1(a)[32] == DOMAIN_V1[32] == 49;
    assert SigningInputV2(b)[32] == DOMAIN_V2[32] == 50;
  }
}
