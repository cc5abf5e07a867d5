/**
 The restricted CBOR layer under every wire object: heads (section 3 of RFC 8949), the
 shortest-head encoder (section 4.2.1 of RFC 8949), and a decoder that, like the library the
 source uses, also accepts heads that are longer than necessary.

 Every wire object of the source is a fixed list of fields read left to right with an early exit,
 so an object is described by a `seq<Field>` and one loop encodes or decodes all of them.
 */
module Cbor {
  import opened Common

  datatype Reason =
    | UnsupportedVersion | UnsupportedObjectType | UnsupportedSignatureSuite
    | UnsupportedAdmissionMode | UnsupportedInvitationUsePolicy
    | UnsupportedInvitationEncryptionSuite | UnsupportedJoinRequestSchema
    | UnsupportedApplicationProtocolVersion | UnsupportedTransportProfile
    | UnsupportedAdmissionProofVersion | UnsupportedMlsProtocolVersion
    | UnsupportedMlsCiphersuite | UnsupportedCredentialType
    | InvalidEnvelopeIdLength | InvalidInvitationIdLength | InvalidJoinChallengeLength
    | InvalidSecretCapabilityLength | InvalidVerifyingKeyLength | InvalidSignatureLength
    | InvalidInvitationKeyIdLength | InvalidHpkePublicKeyLength | InvalidHpkeEncapsulatedKeyLength
    | InvalidTransportInstanceIdLength | InvalidMailboxIdLength | InvalidDepositCapabilityLength
    | InvalidJoinRequestIdLength | InvalidRequestNonceLength | InvalidKeyPackageReferenceLength
    | InvalidCredentialIdentityLength | InvalidLeafSignatureKeyLength
    | CiphertextTooLarge | EmptyProtectedJoinCiphertext | ProtectedJoinCiphertextTooLarge
    | EmptyKeyPackage | KeyPackageTooLarge

  datatype WireError =
    | Malformed
    | TrailingData
    | NonDeterministicEncoding
    | WireObjectTooLarge(actual: nat, maximum: nat)
    | Refused(reason: Reason, actual: nat)
    | ZeroInvitationId | ZeroJoinChallenge | ZeroSecretCapability | ZeroInvitationKeyId
    | ZeroHpkePublicKey | ZeroTransportInstanceId | ZeroMailboxId | ZeroDepositCapability
    | ZeroJoinRequestId | ZeroRequestNonce | ZeroCredentialIdentity | ZeroLeafSignatureKey
    | InvalidLeafSignatureKey | InvalidVerifyingKey | InvalidSignature
    | InvalidJoinRequestTimeRange | InvalidInvitationTimeRange | ResponseEndpointOutlivesRequest

  // ---------- heads ----------

  const UNSIGNED: nat := 0
  const BYTE_STRING: nat := 2
  const ARRAY: nat := 4

  type Major = m: nat | m < 8

  /** Number of bytes that follow the initial byte for additional information 24 to 27. */
  function ArgumentWidth(info: nat): nat
    requires 24 <= info <= 27
  {
    if info == 24 then 1 else if info == 25 then 2 else if info == 26 then 4 else 8
  }

  function ShortestInfo(argument: u64): (info: nat)
    ensures info <= 27
  {
    if argument < 24 then argument
    else if argument < 0x100 then 24
    else if argument < 0x1_0000 then 25
    else if argument < 0x1_0000_0000 then 26
    else 27
  }

  function HeadSize(argument: u64): nat {
    var info := ShortestInfo(argument);
    if info < 24 then 1 else 1 + ArgumentWidth(info)
  }

  /** The encoder's head: always the shortest form. */
  function EncodeHead(major: Major, argument: u64): (s: Bytes)
    ensures |s| == HeadSize(argument)
  {
    var info := ShortestInfo(argument);
    if info < 24 then [major * 32 + info]
    else [major * 32 + info] + ToBigEndian(argument, ArgumentWidth(info))
  }

  datatype Head = Head(argument: u64, next: nat)

  lemma PowersOf256()
    ensures Pow256(1) == 0x100 && Pow256(2) == 0x1_0000 && Pow256(4) == 0x1_0000_0000
    ensures Pow256(8) == U64_LIMIT
  {
    assert Pow256(3) == 0x100_0000;
    assert Pow256(5) == 256 * Pow256(4);
    assert Pow256(6) == 256 * Pow256(5);
    assert Pow256(7) == 256 * Pow256(6);
  }

  /**
   The decoder's head: any definite length of argument is accepted, indefinite and reserved
   additional information is not.
   */
  function DecodeHead(major: Major, input: Bytes, at: nat): (r: Option<Head>)
    ensures r.Some? ==> at < r.value.next <= |input|
  {
    if at >= |input| || input[at] / 32 != major then None
    else
      var info := input[at] % 32;
      if info < 24 then Some(Head(info, at + 1))
      else if info > 27 || at + 1 + ArgumentWidth(info) > |input| then None
      else
        var end := at + 1 + ArgumentWidth(info);
        PowersOf256();
        Some(Head(FromBigEndian(input[at + 1..end]), end))
  }

  /** A head already in its shortest form. */
  predicate ShortestHead(input: Bytes, at: nat, head: Head) {
    at + HeadSize(head.argument) == head.next
  }

  /** `input` holds `part` at byte `at`. */
  predicate HoldsAt(input: Bytes, at: nat, part: Bytes) {
    at + |part| <= |input| && input[at..at + |part|] == part
  }

  lemma HoldsParts(input: Bytes, at: nat, left: Bytes, right: Bytes)
    requires HoldsAt(input, at, left + right)
    ensures HoldsAt(input, at, left) && HoldsAt(input, at + |left|, right)
  {
    var whole := input[at..at + |left| + |right|];
    assert whole[..|left|] == left && whole[|left|..] == right;
  }

  lemma HoldsBoth(input: Bytes, at: nat, left: Bytes, right: Bytes)
    requires HoldsAt(input, at, left) && HoldsAt(input, at + |left|, right)
    ensures HoldsAt(input, at, left + right)
  {
    var end := at + |left| + |right|;
    assert input[at..end] == input[at..at + |left|] + input[at + |left|..end];
  }

  lemma HeadRoundTrip(major: Major, argument: u64, input: Bytes, at: nat)
    requires HoldsAt(input, at, EncodeHead(major, argument))
    ensures DecodeHead(major, input, at) == Some(Head(argument, at + HeadSize(argument)))
  {
    var info := ShortestInfo(argument);
    assert input[at] == EncodeHead(major, argument)[0];
    if info >= 24 {
      PowersOf256();
      BigEndianRoundTrip(argument, ArgumentWidth(info));
      HoldsParts(input, at, [major * 32 + info], ToBigEndian(argument, ArgumentWidth(info)));
    }
  }

  /** The shortest head is the only one of its width that the encoder writes. */
  lemma ShortestWidth(argument: u64, info: nat)
    requires 24 <= info <= 27 && argument < Pow256(ArgumentWidth(info))
    ensures HeadSize(argument) <= 1 + ArgumentWidth(info)
    ensures HeadSize(argument) == 1 + ArgumentWidth(info) ==> ShortestInfo(argument) == info
  {
    PowersOf256();
  }

  /** Re-encoding never grows a head, and reproduces it when it was already shortest. */
  lemma HeadReencoding(major: Major, input: Bytes, at: nat)
    requires DecodeHead(major, input, at).Some?
    ensures var head := DecodeHead(major, input, at).value;
            at + HeadSize(head.argument) <= head.next
            && (ShortestHead(input, at, head) ==> HoldsAt(input, at, EncodeHead(major, head.argument)))
  {
    var head := DecodeHead(major, input, at).value;
    var info := input[at] % 32;
    assert input[at] == major * 32 + info;
    if info < 24 {
      assert EncodeHead(major, head.argument) == [input[at]];
    } else {
      LongHeadReencoding(major, info, input, at, head);
    }
  }

  lemma LongHeadReencoding(major: Major, info: nat, input: Bytes, at: nat, head: Head)
    requires 24 <= info <= 27 && at + 1 + ArgumentWidth(info) == head.next <= |input|
    requires input[at] == major * 32 + info && head.argument == FromBigEndian(input[at + 1..head.next])
    ensures at + HeadSize(head.argument) <= head.next
    ensures ShortestHead(input, at, head) ==> HoldsAt(input, at, EncodeHead(major, head.argument))
  {
    hide ShortestInfo, HeadSize, Pow256, ToBigEndian, FromBigEndian;
    var tail := input[at + 1..head.next];
    BigEndianUnique(tail);
    ShortestWidth(head.argument, info);
    assert input[at..head.next] == [input[at]] + tail;
  }

  // ---------- fields ----------

  datatype Item = Num(n: u64) | Str(s: Bytes)

  datatype Field =
    /** `array()` must give exactly this count. */
    | ArrayOf(count: u64)
    /** `u16()` must give exactly this code point. */
    | Code(expected: u16, refusal: Reason)
    /** `u64()`. */
    | Time
    /** `bytes()` of one exact length. */
    | Fixed(length: nat, refusal: Reason)
    /** `bytes()` within a length range. */
    | Blob(minimum: nat, maximum: nat, empty: Reason, large: Reason)

  predicate Conforms(field: Field, item: Item) {
    match field
    case ArrayOf(count) => item == Num(count)
    case Code(expected, _) => item == Num(expected)
    case Time => item.Num?
    case Fixed(length, _) => item.Str? && |item.s| == length
    case Blob(minimum, maximum, _, _) => item.Str? && minimum <= |item.s| <= maximum
  }

  function FieldMajor(field: Field): Major {
    match field
    case ArrayOf(_) => ARRAY
    case Code(_, _) => UNSIGNED
    case Time => UNSIGNED
    case Fixed(_, _) => BYTE_STRING
    case Blob(_, _, _, _) => BYTE_STRING
  }

  function ItemArgument(item: Item): nat {
    match item
    case Num(n) => n
    case Str(s) => |s|
  }

  function ItemSize(item: Item): nat
    requires ItemArgument(item) < U64_LIMIT
  {
    HeadSize(ItemArgument(item)) + (if item.Str? then |item.s| else 0)
  }

  function EncodeField(field: Field, item: Item): (s: Bytes)
    requires ItemArgument(item) < U64_LIMIT
    ensures |s| == ItemSize(item)
  {
    EncodeHead(FieldMajor(field), ItemArgument(item)) + (if item.Str? then item.s else [])
  }

  function DecodeField(field: Field, input: Bytes, at: nat): (r: Result<(Item, nat), WireError>)
    ensures r.Ok? ==> at < r.value.1 <= |input|
  {
    match DecodeHead(FieldMajor(field), input, at)
    case None => Err(Malformed)
    case Some(Head(argument, next)) =>
      match field
      case ArrayOf(count) =>
        if argument != count then Err(Malformed) else Ok((Num(argument), next))
      case Code(expected, refusal) =>
        if argument >= 0x1_0000 then Err(Malformed)
        else if argument != expected then Err(Refused(refusal, argument))
        else Ok((Num(argument), next))
      case Time => Ok((Num(argument), next))
      case Fixed(length, refusal) =>
        if next + argument > |input| then Err(Malformed)
        else if argument != length then Err(Refused(refusal, argument))
        else Ok((Str(input[next..next + argument]), next + argument))
      case Blob(minimum, maximum, empty, large) =>
        if next + argument > |input| then Err(Malformed)
        else if argument < minimum then Err(Refused(empty, argument))
        else if argument > maximum then Err(Refused(large, argument))
        else Ok((Str(input[next..next + argument]), next + argument))
  }

  /** A field whose head could not have been written shorter. */
  predicate ShortestField(field: Field, input: Bytes, at: nat) {
    var head := DecodeHead(FieldMajor(field), input, at);
    head.Some? && ShortestHead(input, at, head.value)
  }

  lemma FieldRoundTrip(field: Field, item: Item, input: Bytes, at: nat)
    requires Conforms(field, item) && ItemArgument(item) < U64_LIMIT
    requires HoldsAt(input, at, EncodeField(field, item))
    ensures DecodeField(field, input, at) == Ok((item, at + ItemSize(item)))
  {
    hide EncodeHead, DecodeHead, ShortestInfo;
    var body := if item.Str? then item.s else [];
    HoldsParts(input, at, EncodeHead(FieldMajor(field), ItemArgument(item)), body);
    HeadRoundTrip(FieldMajor(field), ItemArgument(item), input, at);
  }

  lemma FieldReencoding(field: Field, input: Bytes, at: nat)
    requires DecodeField(field, input, at).Ok?
    ensures var (item, next) := DecodeField(field, input, at).value;
            ItemArgument(item) < U64_LIMIT
            && at + ItemSize(item) <= next
            && (ShortestField(field, input, at) <==> at + ItemSize(item) == next)
            && (ShortestField(field, input, at) ==> HoldsAt(input, at, EncodeField(field, item)))
  {
    hide EncodeHead, DecodeHead, ShortestInfo, HeadSize;
    var (item, next) := DecodeField(field, input, at).value;
    HeadReencoding(FieldMajor(field), input, at);
    if ShortestField(field, input, at) {
      var body := if item.Str? then item.s else [];
      HoldsBoth(input, at, EncodeHead(FieldMajor(field), ItemArgument(item)), body);
    }
  }

  // ---------- field lists ----------

  predicate AllConform(fields: seq<Field>, items: seq<Item>) {
    |fields| == |items| && forall k :: 0 <= k < |fields| ==> Conforms(fields[k], items[k])
  }

  predicate Encodable(items: seq<Item>) {
    forall k :: 0 <= k < |items| ==> ItemArgument(items[k]) < U64_LIMIT
  }

  function EncodeFrom(fields: seq<Field>, items: seq<Item>, k: nat): (s: Bytes)
    requires |fields| == |items| && Encodable(items) && k <= |items|
    ensures |s| == SizeFrom(items, k)
    decreases |items| - k
  {
    if k == |items| then [] else EncodeField(fields[k], items[k]) + EncodeFrom(fields, items, k + 1)
  }

  function SizeFrom(items: seq<Item>, k: nat): nat
    requires Encodable(items) && k <= |items|
    decreases |items| - k
  {
    if k == |items| then 0 else ItemSize(items[k]) + SizeFrom(items, k + 1)
  }

  /** Reads fields `k..` starting at byte `at`; stops at the first refused field. */
  function DecodeFrom(fields: seq<Field>, k: nat, input: Bytes, at: nat)
    : (r: Result<(seq<Item>, nat), WireError>)
    requires k <= |fields|
    ensures r.Ok? ==> |r.value.0| == |fields| - k
    decreases |fields| - k
  {
    if k == |fields| then Ok(([], at))
    else
      var (item, next) :- DecodeField(fields[k], input, at);
      var (rest, end) :- DecodeFrom(fields, k + 1, input, next);
      Ok(([item] + rest, end))
  }

  /** Every head met while reading fields `k..` from `at` is in its shortest form. */
  predicate ShortestFrom(fields: seq<Field>, k: nat, input: Bytes, at: nat)
    requires k <= |fields|
    decreases |fields| - k
  {
    k == |fields|
    || (ShortestField(fields[k], input, at)
        && match DecodeField(fields[k], input, at)
           case Ok((_, next)) => ShortestFrom(fields, k + 1, input, next)
           case Err(_) => true)
  }

  lemma {:induction false} ListRoundTrip(fields: seq<Field>, items: seq<Item>, k: nat, input: Bytes, at: nat)
    requires AllConform(fields, items) && Encodable(items) && k <= |items|
    requires HoldsAt(input, at, EncodeFrom(fields, items, k))
    ensures DecodeFrom(fields, k, input, at) == Ok((items[k..], at + SizeFrom(items, k)))
    decreases |items| - k
  {
    hide EncodeField, DecodeField, ItemSize, Conforms, HoldsAt;
    if k < |items| {
      HoldsParts(input, at, EncodeField(fields[k], items[k]), EncodeFrom(fields, items, k + 1));
      FieldRoundTrip(fields[k], items[k], input, at);
      ListRoundTrip(fields, items, k + 1, input, at + ItemSize(items[k]));
      assert items[k..] == [items[k]] + items[k + 1..];
    } else {
      assert items[k..] == [];
    }
  }

  /**
   What the re-encode comparison decides. After a successful tolerant parse, the re-encoding is
   never longer than the bytes read, and it reproduces them when every head was shortest.
   */
  lemma {:induction false} ListReencoding(fields: seq<Field>, k: nat, input: Bytes, at: nat, items: seq<Item>)
    requires k <= |fields| == |items| && at <= |input| && Encodable(items)
    requires DecodeFrom(fields, k, input, at).Ok?
    requires DecodeFrom(fields, k, input, at).value.0 == items[k..]
    ensures var end := DecodeFrom(fields, k, input, at).value.1;
            at + SizeFrom(items, k) <= end <= |input|
            && (ShortestFrom(fields, k, input, at) <==> at + SizeFrom(items, k) == end)
            && (ShortestFrom(fields, k, input, at) ==> HoldsAt(input, at, EncodeFrom(fields, items, k)))
    decreases |fields| - k
  {
    hide EncodeField, DecodeField, ItemSize, ItemArgument, ShortestField;
    if k < |fields| {
      FieldReencoding(fields[k], input, at);
      var (item, next) := DecodeField(fields[k], input, at).value;
      assert items[k] == item by { assert items[k] == items[k..][0]; }
      assert items[k + 1..] == items[k..][1..];
      ListReencoding(fields, k + 1, input, next, items);
      if ShortestFrom(fields, k, input, at) {
        HoldsBoth(input, at, EncodeField(fields[k], item), EncodeFrom(fields, items, k + 1));
      }
    }
  }

  lemma {:induction false} DecodedItemsConform(fields: seq<Field>, k: nat, input: Bytes, at: nat)
    requires k <= |fields| && DecodeFrom(fields, k, input, at).Ok?
    ensures var items := DecodeFrom(fields, k, input, at).value.0;
            Encodable(items)
            && forall j :: 0 <= j < |items| ==> Conforms(fields[k + j], items[j])
    decreases |fields| - k
  {
    if k < |fields| {
      FieldReencoding(fields[k], input, at);
      var (item, next) := DecodeField(fields[k], input, at).value;
      DecodedItemsConform(fields, k + 1, input, next);
    }
  }

  // ---------- the loops ----------

  /** The encoder: appends one field after another to a growing buffer. */
  method Encode(fields: seq<Field>, items: seq<Item>) returns (buffer: Bytes)
    requires |fields| == |items| && Encodable(items)
    ensures buffer == EncodeFrom(fields, items, 0)
  {
    buffer := [];
    for k := 0 to |items|
      invariant buffer + EncodeFrom(fields, items, k) == EncodeFrom(fields, items, 0)
    {
      var next := EncodeField(fields[k], items[k]);
      assert buffer + (next + EncodeFrom(fields, items, k + 1))
          == (buffer + next) + EncodeFrom(fields, items, k + 1);
      buffer := buffer + next;
    }
  }

  ghost function Prepend(items: seq<Item>, later: Result<(seq<Item>, nat), WireError>)
    : Result<(seq<Item>, nat), WireError>
  {
    match later
    case Ok((rest, end)) => Ok((items + rest, end))
    case Err(error) => Err(error)
  }

  lemma PrependOne(items: seq<Item>, item: Item, later: Result<(seq<Item>, nat), WireError>)
    ensures Prepend(items, Prepend([item], later)) == Prepend(items + [item], later)
  {
    if later.Ok? {
      assert items + ([item] + later.value.0) == (items + [item]) + later.value.0;
    }
  }

  /** The decoder: a position that moves over the input, with an early exit. */
  method Decode(fields: seq<Field>, input: Bytes) returns (r: Result<(seq<Item>, nat), WireError>)
    ensures r == DecodeFrom(fields, 0, input, 0)
  {
    var items: seq<Item> := [];
    var position := 0;
    ghost var whole := DecodeFrom(fields, 0, input, 0);
    assert whole.Ok? ==> [] + whole.value.0 == whole.value.0;
    for k := 0 to |fields|
      invariant whole == Prepend(items, DecodeFrom(fields, k, input, position))
    {
      var step := DecodeField(fields[k], input, position);
      if step.Err? {
        return Err(step.error);
      }
      PrependOne(items, step.value.0, DecodeFrom(fields, k + 1, input, step.value.1));
      items := items + [step.value.0];
      position := step.value.1;
    }
    assert items + [] == items;
    return Ok((items, position));
  }
}
