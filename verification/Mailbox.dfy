/** The process-local Welcome mailbox: one accepted envelope per mailbox, three separate rights. */
module Mailbox {
  import opened Common
  import opened WireObjects

  datatype MailboxPolicy = MailboxPolicy(lifetimeSeconds: nat, liveMailboxes: nat)

  datatype MailboxError = Rejected | CapacityExceeded | ProviderFailure

  /** Domain-separated SHA-256, taken as injective. */
  datatype Digest = CapabilityDigest(secret: Bytes) | EnvelopeDigest(encoded: Bytes)

  datatype Accepted = Accepted(envelopeId: Bytes, digest: Digest, deliveryId: Bytes, envelope: Option<OpaqueEnvelope>)

  datatype MailboxRecord = MailboxRecord(
    expiresAt: u64, depositDigest: Digest, receiveDigest: Digest, acknowledgementDigest: Digest,
    accepted: Option<Accepted>)

  /** Receive or acknowledgement authority. */
  datatype Right = Right(instance: Bytes, mailboxId: Bytes, secret: Bytes, expiresAt: u64)

  datatype NewMailbox = NewMailbox(deposit: DepositEndpoint, receive: Right, acknowledge: Right)

  datatype Received = Received(deliveryId: Bytes, envelope: OpaqueEnvelope)

  datatype Transport = Transport(policy: MailboxPolicy, instance: Id16, mailboxes: map<Bytes, MailboxRecord>)

  type Id16 = s: Bytes | |s| == 16 witness seq(16, i => 0)

  /** One call of the random source for an array of that size: it may fail. */
  type Draw16 = d: Option<Bytes> | d.Some? ==> |d.value| == 16 witness None
  type Draw32 = d: Option<Bytes> | d.Some? ==> |d.value| == 32 witness None

  /** An all-zero draw is refused. */
  function Nonzero(draw: Option<Bytes>): Result<Bytes, MailboxError> {
    if draw.None? || AllZero(draw.value) then Err(ProviderFailure) else Ok(draw.value)
  }

  datatype Draws = Draws(mailboxId: Draw16, deposit: Draw32, receive: Draw32, acknowledgement: Draw32)

  function Unexpired(m: Transport, now: u64): set<Bytes> {
    set id | id in m.mailboxes && m.mailboxes[id].expiresAt > now
  }

  function Create(m: Transport, expiresAt: u64, now: u64, draws: Draws)
    : (Transport, Result<NewMailbox, MailboxError>)
  {
    match Describe(m, expiresAt, now, draws)
    case Err(error) => (m, Err(error))
    case Ok(made) =>
      var kept := map id | id in Unexpired(m, now) :: m.mailboxes[id];
      var record := MailboxRecord(expiresAt, CapabilityDigest(made.deposit.capability),
                                  CapabilityDigest(made.receive.secret),
                                  CapabilityDigest(made.acknowledge.secret), None);
      (m.(mailboxes := kept[made.deposit.mailboxId := record]), Ok(made))
  }

  /** The checks of creation and the rights it hands out. */
  function Describe(m: Transport, expiresAt: u64, now: u64, draws: Draws): Result<NewMailbox, MailboxError> {
    if expiresAt <= now || expiresAt - now > m.policy.lifetimeSeconds then Err(Rejected)
    else if |Unexpired(m, now)| >= m.policy.liveMailboxes then Err(CapacityExceeded)
    else
      var id :- Nonzero(draws.mailboxId);
      if id in m.mailboxes then Err(ProviderFailure)
      else
        var deposit :- Nonzero(draws.deposit);
        var receive :- Nonzero(draws.receive);
        var acknowledgement :- Nonzero(draws.acknowledgement);
        if deposit == receive || deposit == acknowledgement || receive == acknowledgement then Err(ProviderFailure)
        else
          match NewEndpoint(m.instance, id, deposit, expiresAt)
          case Err(_) => Err(ProviderFailure)
          case Ok(endpoint) =>
            Ok(NewMailbox(endpoint, Right(m.instance, id, receive, expiresAt),
                          Right(m.instance, id, acknowledgement, expiresAt)))
  }

  function WithAccepted(m: Transport, id: Bytes, accepted: Accepted): Transport
    requires id in m.mailboxes
  {
    m.(mailboxes := m.mailboxes[id := m.mailboxes[id].(accepted := Some(accepted))])
  }

  predicate Admits(m: Transport, endpoint: DepositEndpoint, envelope: OpaqueEnvelope, now: u64) {
    && endpoint.transportInstanceId == m.instance
    && endpoint.expiresAt > now
    && now < envelope.expiresAt <= endpoint.expiresAt
    && !AllZero(envelope.id)
    && endpoint.mailboxId in m.mailboxes
    && m.mailboxes[endpoint.mailboxId].expiresAt == endpoint.expiresAt
    && m.mailboxes[endpoint.mailboxId].depositDigest == CapabilityDigest(endpoint.capability)
  }

  function Deposit(m: Transport, endpoint: DepositEndpoint, envelope: OpaqueEnvelope, now: u64, draw: Draw16)
    : (Transport, Result<Bytes, MailboxError>)
    requires envelope.Constructible()
  {
    if !Admits(m, endpoint, envelope, now) then (m, Err(Rejected))
    else
      match EncodeEnvelope(envelope)
      case Err(_) => (m, Err(Rejected))
      case Ok(encoded) =>
        var digest := EnvelopeDigest(encoded);
        match m.mailboxes[endpoint.mailboxId].accepted
        case Some(held) =>
          if held.envelopeId == envelope.id && held.digest == digest then (m, Ok(held.deliveryId))
          else (m, Err(Rejected))
        case None =>
          match Nonzero(draw)
          case Err(error) => (m, Err(error))
          case Ok(deliveryId) =>
            (WithAccepted(m, endpoint.mailboxId, Accepted(envelope.id, digest, deliveryId, Some(envelope))),
             Ok(deliveryId))
  }

  predicate Opens(m: Transport, right: Right, now: u64) {
    right.instance == m.instance && right.expiresAt > now && right.mailboxId in m.mailboxes
    && m.mailboxes[right.mailboxId].expiresAt == right.expiresAt
  }

  function Receive(m: Transport, right: Right, now: u64): (Transport, Result<Option<Received>, MailboxError>) {
    if !Opens(m, right, now) then (m, Err(Rejected))
    else
      var record := m.mailboxes[right.mailboxId];
      if record.receiveDigest != CapabilityDigest(right.secret) then (m, Err(Rejected))
      else
        match record.accepted
        case None => (m, Ok(None))
        case Some(held) =>
          if held.envelope.Some? && held.envelope.value.expiresAt <= now then
            (WithAccepted(m, right.mailboxId, held.(envelope := None)), Ok(None))
          else if held.envelope.Some? then (m, Ok(Some(Received(held.deliveryId, held.envelope.value))))
          else (m, Ok(None))
  }

  function Acknowledge(m: Transport, right: Right, deliveryId: Bytes, now: u64)
    : (Transport, Result<(), MailboxError>)
  {
    if !Opens(m, right, now) then (m, Err(Rejected))
    else
      var record := m.mailboxes[right.mailboxId];
      if record.acknowledgementDigest != CapabilityDigest(right.secret) then (m, Err(Rejected))
      else if record.accepted.None? || record.accepted.value.deliveryId != deliveryId then (m, Err(Rejected))
      else (WithAccepted(m, right.mailboxId, record.accepted.value.(envelope := None)), Ok(()))
  }

  // ---------- runs ----------

  datatype Step =
    | Creating(expiresAt: u64, now: u64, draws: Draws)
    | Depositing(endpoint: DepositEndpoint, envelope: OpaqueEnvelope, now: u64, draw: Draw16)
    | Receiving(right: Right, now: u64)
    | Acknowledging(right: Right, deliveryId: Bytes, now: u64)

  /** Envelopes only come from their constructor or decoder. */
  predicate WellFormed(step: Step) {
    step.Depositing? ==> step.envelope.Constructible()
  }

  predicate AllWellFormed(steps: seq<Step>) {
    forall i :: 0 <= i < |steps| ==> WellFormed(steps[i])
  }

  function Next(m: Transport, step: Step): Transport
    requires WellFormed(step)
  {
    match step
    case Creating(expiresAt, now, draws) => Create(m, expiresAt, now, draws).0
    case Depositing(endpoint, envelope, now, draw) => Deposit(m, endpoint, envelope, now, draw).0
    case Receiving(right, now) => Receive(m, right, now).0
    case Acknowledging(right, deliveryId, now) => Acknowledge(m, right, deliveryId, now).0
  }

  function Run(m: Transport, steps: seq<Step>): Transport
    requires AllWellFormed(steps)
    decreases |steps|
  {
    if steps == [] then m else Run(Next(m, steps[0]), steps[1..])
  }

  /** Mailbox ids a step puts into use. */
  function Opened(m: Transport, step: Step): set<Bytes> {
    match step
    case Creating(expiresAt, now, draws) =>
      var answer := Create(m, expiresAt, now, draws).1;
      if answer.Ok? then {answer.value.deposit.mailboxId} else {}
    case _ => {}
  }

  /** No step of the run opens a mailbox with this id. While a mailbox is in use its id cannot be drawn anyway. */
  predicate NeverDrawn(m: Transport, steps: seq<Step>, id: Bytes)
    requires AllWellFormed(steps)
    decreases |steps|
  {
    steps == [] || (id !in Opened(m, steps[0]) && NeverDrawn(Next(m, steps[0]), steps[1..], id))
  }

  // ---------- laws ----------

  /** A new mailbox opens for its own three rights, and neither secret right stands in for the other. */
  lemma RightsAreSeparate(m: Transport, expiresAt: u64, now: u64, draws: Draws, deliveryId: Bytes, later: u64)
    requires Create(m, expiresAt, now, draws).1.Ok? && later < expiresAt
    ensures var (after, answer) := Create(m, expiresAt, now, draws);
            var made := answer.value;
            && Receive(after, made.receive, later) == (after, Ok(None))
            && Receive(after, made.acknowledge, later) == (after, Err(Rejected))
            && Acknowledge(after, made.receive, deliveryId, later) == (after, Err(Rejected))
            && made.deposit.mailboxId !in m.mailboxes
            && after.mailboxes.Keys == Unexpired(m, now) + {made.deposit.mailboxId}
            && after.mailboxes[made.deposit.mailboxId].depositDigest == CapabilityDigest(made.deposit.capability)
  {
  }

  /** The bound on live mailboxes is never exceeded at the time of creation. */
  lemma CreationIsBounded(m: Transport, expiresAt: u64, now: u64, draws: Draws)
    requires Create(m, expiresAt, now, draws).1.Ok?
    ensures |Create(m, expiresAt, now, draws).0.mailboxes| <= m.policy.liveMailboxes
  {
    var (after, answer) := Create(m, expiresAt, now, draws);
    assert after.mailboxes.Keys == Unexpired(m, now) + {answer.value.deposit.mailboxId};
    assert |after.mailboxes.Keys| == |after.mailboxes|;
  }

  /** What a mailbox has accepted, without the envelope that may since have been consumed. */
  datatype Identity = Identity(envelopeId: Bytes, digest: Digest, deliveryId: Bytes)

  function IdentityOf(record: MailboxRecord): Option<Identity> {
    match record.accepted
    case None => None
    case Some(held) => Some(Identity(held.envelopeId, held.digest, held.deliveryId))
  }

  predicate Consumed(record: MailboxRecord) {
    record.accepted.Some? && record.accepted.value.envelope.None?
  }

  /** One step on a mailbox that is in use: it may vanish, but what it accepted never changes. */
  lemma NextKeepsAcceptance(m: Transport, step: Step, id: Bytes)
    requires WellFormed(step) && id in m.mailboxes && id in Next(m, step).mailboxes
    ensures var before := m.mailboxes[id];
            var after := Next(m, step).mailboxes[id];
            && after.(accepted := None) == before.(accepted := None)
            && (before.accepted.Some? ==> IdentityOf(after) == IdentityOf(before))
            && (Consumed(before) ==> Consumed(after))
  {
    hide EncodeEnvelope;
  }

  lemma NextOpens(m: Transport, step: Step, id: Bytes)
    requires WellFormed(step) && id !in m.mailboxes && id in Next(m, step).mailboxes
    ensures id in Opened(m, step)
  {
    hide EncodeEnvelope, NewEndpoint;
  }

  lemma {:induction false} GoneForGood(m: Transport, steps: seq<Step>, id: Bytes)
    requires AllWellFormed(steps) && NeverDrawn(m, steps, id) && id !in m.mailboxes
    ensures id !in Run(m, steps).mailboxes
    decreases |steps|
  {
    hide Next, Opened;
    if steps != [] {
      if id in Next(m, steps[0]).mailboxes {
        NextOpens(m, steps[0], id);
      }
      GoneForGood(Next(m, steps[0]), steps[1..], id);
    }
  }

  /** In every run a mailbox keeps the identity and delivery id it first accepted, until it is gone for good. */
  lemma {:induction false} AcceptanceIsFixed(m: Transport, steps: seq<Step>, id: Bytes)
    requires AllWellFormed(steps) && NeverDrawn(m, steps, id) && id in m.mailboxes
    ensures var after := Run(m, steps).mailboxes;
            id in after ==>
              && after[id].(accepted := None) == m.mailboxes[id].(accepted := None)
              && (m.mailboxes[id].accepted.Some? ==> IdentityOf(after[id]) == IdentityOf(m.mailboxes[id]))
              && (Consumed(m.mailboxes[id]) ==> Consumed(after[id]))
    decreases |steps|
  {
    hide Next, Opened, Consumed;
    if steps != [] {
      var next := Next(m, steps[0]);
      if id in next.mailboxes {
        NextKeepsAcceptance(m, steps[0], id);
        AcceptanceIsFixed(next, steps[1..], id);
      } else {
        GoneForGood(next, steps[1..], id);
      }
    }
  }

  /** After an acknowledgement no later receive, by anyone at any time, yields an envelope from that mailbox. */
  lemma AcknowledgedStaysUnreadable(m: Transport, right: Right, deliveryId: Bytes, now: u64,
                                    steps: seq<Step>, reader: Right, later: u64)
    requires Acknowledge(m, right, deliveryId, now).1.Ok?
    requires AllWellFormed(steps) && NeverDrawn(Acknowledge(m, right, deliveryId, now).0, steps, right.mailboxId)
    requires reader.mailboxId == right.mailboxId
    ensures var answer := Receive(Run(Acknowledge(m, right, deliveryId, now).0, steps), reader, later).1;
            answer == Ok(None) || answer == Err(Rejected)
  {
    var done := Acknowledge(m, right, deliveryId, now).0;
    AcceptanceIsFixed(done, steps, right.mailboxId);
  }

  /** What the mailbox hands to a reader is the accepted envelope: its encoding is the accepted digest's. */
  predicate Honest(record: MailboxRecord) {
    record.accepted.Some? && record.accepted.value.envelope.Some? ==>
      var held := record.accepted.value;
      && held.envelope.value.Constructible()
      && held.envelopeId == held.envelope.value.id
      && EncodeEnvelope(held.envelope.value).Ok?
      && held.digest == EnvelopeDigest(EncodeEnvelope(held.envelope.value).value)
  }

  predicate AllHonest(m: Transport) {
    forall id :: id in m.mailboxes ==> Honest(m.mailboxes[id])
  }

  lemma NextKeepsHonest(m: Transport, step: Step)
    requires WellFormed(step) && AllHonest(m)
    ensures AllHonest(Next(m, step))
  {
    hide EncodeEnvelope, NewEndpoint;
  }

  lemma {:induction false} RunKeepsHonest(m: Transport, steps: seq<Step>)
    requires AllWellFormed(steps) && AllHonest(m)
    ensures AllHonest(Run(m, steps))
    decreases |steps|
  {
    hide Next, AllHonest;
    if steps != [] {
      NextKeepsHonest(m, steps[0]);
      RunKeepsHonest(Next(m, steps[0]), steps[1..]);
    }
  }

  /** A successful deposit leaves exactly that envelope's identity accepted under the answered delivery id. */
  lemma DepositAccepts(m: Transport, endpoint: DepositEndpoint, envelope: OpaqueEnvelope, now: u64, draw: Draw16)
    requires envelope.Constructible() && Deposit(m, endpoint, envelope, now, draw).1.Ok?
    ensures var (after, answer) := Deposit(m, endpoint, envelope, now, draw);
            && EncodeEnvelope(envelope).Ok?
            && endpoint.mailboxId in m.mailboxes && endpoint.mailboxId in after.mailboxes
            && IdentityOf(after.mailboxes[endpoint.mailboxId])
               == Some(Identity(envelope.id, EnvelopeDigest(EncodeEnvelope(envelope).value), answer.value))
  {
    hide EncodeEnvelope;
  }

  /** Depositing the same envelope again, whatever was drawn, changes nothing and repeats the delivery id. */
  lemma DepositIsIdempotent(m: Transport, endpoint: DepositEndpoint, envelope: OpaqueEnvelope, now: u64, draw: Draw16,
                            later: u64, redraw: Draw16)
    requires envelope.Constructible() && Deposit(m, endpoint, envelope, now, draw).1.Ok?
    requires later < envelope.expiresAt
    ensures var (after, answer) := Deposit(m, endpoint, envelope, now, draw);
            Deposit(after, endpoint, envelope, later, redraw) == (after, answer)
  {
    hide EncodeEnvelope;
  }
}
