/** The mutating mailbox transport, proved against the mailbox functions. */
module LocalTransport {
  import opened Common
  import opened WireObjects
  import opened Mailbox

  class LocalMemoryWelcomeTransport {
    const policy: MailboxPolicy
    const instance: Id16
    var mailboxes: map<Bytes, MailboxRecord>

    ghost function State(): Transport
      reads this
    {
      Transport(policy, instance, mailboxes)
    }

    constructor (policy: MailboxPolicy, instance: Id16)
      ensures State() == Transport(policy, instance, map[])
    {
      this.policy := policy;
      this.instance := instance;
      mailboxes := map[];
    }

    /** Drops every mailbox that has expired. */
    method RetainUnexpired(now: u64)
      modifies this`mailboxes
      ensures mailboxes == map id | id in Unexpired(old(State()), now) :: old(mailboxes)[id]
    {
      var todo := mailboxes.Keys;
      while todo != {}
        invariant todo <= mailboxes.Keys <= old(mailboxes).Keys
        invariant forall id :: id in mailboxes ==> mailboxes[id] == old(mailboxes)[id]
        invariant forall id :: id in old(mailboxes) && id !in todo ==>
                    (id in mailboxes <==> old(mailboxes)[id].expiresAt > now)
        decreases |todo|
      {
        var id :| id in todo;
        todo := todo - {id};
        if mailboxes[id].expiresAt <= now {
          mailboxes := mailboxes - {id};
        }
      }
    }

    method CreateWelcomeMailbox(expiresAt: u64, now: u64, draws: Draws)
      returns (answer: Result<NewMailbox, MailboxError>)
      modifies this
      ensures (State(), answer) == Create(old(State()), expiresAt, now, draws)
    {
      if expiresAt <= now || expiresAt - now > policy.lifetimeSeconds {
        return Err(Rejected);
      }
      if |set id | id in mailboxes && mailboxes[id].expiresAt > now| >= policy.liveMailboxes {
        return Err(CapacityExceeded);
      }
      var id :- Nonzero(draws.mailboxId);
      if id in mailboxes {
        return Err(ProviderFailure);
      }
      var deposit :- Nonzero(draws.deposit);
      var receive :- Nonzero(draws.receive);
      var acknowledgement :- Nonzero(draws.acknowledgement);
      if deposit == receive || deposit == acknowledgement || receive == acknowledgement {
        return Err(ProviderFailure);
      }
      var endpoint := NewEndpoint(instance, id, deposit, expiresAt);
      if endpoint.Err? {
        return Err(ProviderFailure);
      }
      RetainUnexpired(now);
      mailboxes := mailboxes[id := MailboxRecord(expiresAt, CapabilityDigest(deposit), CapabilityDigest(receive),
                                                 CapabilityDigest(acknowledgement), None)];
      return Ok(NewMailbox(endpoint.value, Right(instance, id, receive, expiresAt),
                           Right(instance, id, acknowledgement, expiresAt)));
    }

    method DepositEnvelope(endpoint: DepositEndpoint, envelope: OpaqueEnvelope, now: u64, draw: Draw16)
      returns (answer: Result<Bytes, MailboxError>)
      requires envelope.Constructible()
      modifies this
      ensures (State(), answer) == Deposit(old(State()), endpoint, envelope, now, draw)
    {
      hide EncodeEnvelope;
      if endpoint.transportInstanceId != instance
         || endpoint.expiresAt <= now
         || envelope.expiresAt <= now
         || envelope.expiresAt > endpoint.expiresAt
         || AllZero(envelope.id)
      {
        return Err(Rejected);
      }
      if endpoint.mailboxId !in mailboxes {
        return Err(Rejected);
      }
      var record := mailboxes[endpoint.mailboxId];
      if record.expiresAt != endpoint.expiresAt || record.depositDigest != CapabilityDigest(endpoint.capability) {
        return Err(Rejected);
      }
      var encoded := EncodeEnvelope(envelope);
      if encoded.Err? {
        return Err(Rejected);
      }
      var digest := EnvelopeDigest(encoded.value);
      if record.accepted.Some? {
        var held := record.accepted.value;
        if held.envelopeId == envelope.id && held.digest == digest {
          return Ok(held.deliveryId);
        }
        return Err(Rejected);
      }
      var deliveryId :- Nonzero(draw);
      mailboxes := mailboxes[endpoint.mailboxId :=
        record.(accepted := Some(Accepted(envelope.id, digest, deliveryId, Some(envelope))))];
      return Ok(deliveryId);
    }

    method ReceiveEnvelope(right: Right, now: u64) returns (answer: Result<Option<Received>, MailboxError>)
      modifies this
      ensures (State(), answer) == Receive(old(State()), right, now)
    {
      if right.instance != instance || right.expiresAt <= now || right.mailboxId !in mailboxes {
        return Err(Rejected);
      }
      var record := mailboxes[right.mailboxId];
      if record.expiresAt != right.expiresAt || record.receiveDigest != CapabilityDigest(right.secret) {
        return Err(Rejected);
      }
      if record.accepted.None? {
        return Ok(None);
      }
      var held := record.accepted.value;
      if held.envelope.Some? && held.envelope.value.expiresAt <= now {
        held := held.(envelope := None);
        mailboxes := mailboxes[right.mailboxId := record.(accepted := Some(held))];
      }
      return Ok(match held.envelope case None => None case Some(e) => Some(Received(held.deliveryId, e)));
    }

    method AcknowledgeDelivery(right: Right, deliveryId: Bytes, now: u64) returns (answer: Result<(), MailboxError>)
      modifies this
      ensures (State(), answer) == Acknowledge(old(State()), right, deliveryId, now)
    {
      if right.instance != instance || right.expiresAt <= now || right.mailboxId !in mailboxes {
        return Err(Rejected);
      }
      var record := mailboxes[right.mailboxId];
      if record.expiresAt != right.expiresAt || record.acknowledgementDigest != CapabilityDigest(right.secret) {
        return Err(Rejected);
      }
      if record.accepted.None? || record.accepted.value.deliveryId != deliveryId {
        return Err(Rejected);
      }
      var held := record.accepted.value.(envelope := None);
      mailboxes := mailboxes[right.mailboxId := record.(accepted := Some(held))];
      return Ok(());
    }
  }
}
