/** The two mutable owners of an admission, and the prepared Add that borrows both. */
module AdmissionOwners {
  import opened Common
  import opened Admission

  class InvitationRegistry {
    const policy: InvitationPolicy
    var records: map<nat, InvitationRecord>

    ghost function State(): Registry
      reads this
    {
      Registry(policy, records)
    }

    constructor (policy: InvitationPolicy)
      ensures State() == Registry(policy, map[])
    {
      this.policy := policy;
      records := map[];
    }

    method Issue(i: Invitation, now: u64) returns (answer: Result<(), LifecycleError>)
      modifies this
      ensures (State(), answer) == IssueInvitation(old(State()), i, now)
    {
      var _ :- CheckTimes(policy, i, now);
      if i.id in records && records[i.id].expiresAt > now {
        return Err(DuplicateInvitationId);
      }
      var live := set id | id in records && records[id].expiresAt > now;
      assert live == Live(State(), now);
      if |live| >= policy.liveInvitations {
        return Err(CapacityExceeded);
      }
      records := map id | id in live :: records[id];
      assert records == map id | id in Live(old(State()), now) :: old(records)[id];
      records := records[i.id := InvitationRecord(i.schema, i.expiresAt, i.inviterKey, i.signature, Available)];
      return Ok(());
    }

    method Reserve(i: Invitation, requestId: nat, now: u64) returns (answer: Result<InvitationReservation, LifecycleError>)
      modifies this
      ensures (State(), answer) == ReserveInvitation(old(State()), i, requestId, now)
    {
      if requestId == 0 {
        return Err(ZeroJoinRequestId);
      }
      var _ :- CheckTimes(policy, i, now);
      if i.id !in records {
        return Err(UnknownInvitation);
      }
      var record := records[i.id];
      if !Matches(record, i) {
        return Err(DescriptorMismatch);
      }
      match record.lifecycle {
        case Available =>
          records := records[i.id := record.(lifecycle := Reserved(requestId))];
          return Ok(InvitationReservation(i.id, requestId, record.signature, record.schema));
        case Reserved(_) =>
          return Err(AlreadyReserved);
        case Consumed =>
          return Err(AlreadyConsumed);
      }
    }

    /** Moves a reserved record on, for its exact owner and before its expiry. */
    method Settle(r: InvitationReservation, l: Lifecycle, now: u64) returns (answer: Result<(), LifecycleError>)
      modifies this
      ensures answer == ValidateReservation(old(State()), r, now)
      ensures answer.Err? ==> State() == old(State())
      ensures answer.Ok? ==> r.invitationId in old(records) && State() == SetLifecycle(old(State()), r.invitationId, l)
    {
      if r.invitationId !in records {
        return Err(UnknownInvitation);
      }
      var record := records[r.invitationId];
      if record.expiresAt <= now {
        return Err(Expired(record.expiresAt, now));
      }
      if record.schema != r.schema || record.signature != r.signature {
        return Err(ReservationMismatch);
      }
      match record.lifecycle {
        case Reserved(requestId) =>
          if requestId != r.requestId {
            return Err(ReservationMismatch);
          }
          records := records[r.invitationId := record.(lifecycle := l)];
          return Ok(());
        case Available =>
          return Err(NotReserved);
        case Consumed =>
          return Err(AlreadyConsumed);
      }
    }
  }

  class CapabilityAdmissionVerifier {
    const policy: AdmissionPolicy
    var pending: seq<PendingReplay>
    var nextReservation: u64

    ghost function State(): Verifier
      reads this
    {
      Verifier(policy, pending, nextReservation)
    }

    constructor (policy: AdmissionPolicy)
      ensures State() == Verifier(policy, [], 1)
    {
      this.policy := policy;
      pending := [];
      nextReservation := 1;
    }

    static lemma ClashInFront(entry: PendingReplay, rest: seq<PendingReplay>, r: ReplayReservation)
      ensures (exists i :: 0 <= i < |[entry] + rest| && Clashes(([entry] + rest)[i].reservation, r))
              <==> Clashes(entry.reservation, r) || exists i :: 0 <= i < |rest| && Clashes(rest[i].reservation, r)
    {
      var all := [entry] + rest;
      if i :| 0 <= i < |rest| && Clashes(rest[i].reservation, r) {
        assert Clashes(all[i + 1].reservation, r);
      }
      if Clashes(entry.reservation, r) {
        assert Clashes(all[0].reservation, r);
      }
    }

    /** One pass over the ledger: what is unexpired, and whether any of it clashes. */
    method Scan(reservation: ReplayReservation, now: u64) returns (kept: seq<PendingReplay>, replayed: bool)
      ensures kept == Unexpired(pending, now)
      ensures replayed <==> exists i :: 0 <= i < |kept| && Clashes(kept[i].reservation, reservation)
    {
      kept := [];
      replayed := false;
      var n := |pending|;
      while n > 0
        invariant 0 <= n <= |pending| && kept == Unexpired(pending[n..], now)
        invariant replayed <==> exists i :: 0 <= i < |kept| && Clashes(kept[i].reservation, reservation)
      {
        n := n - 1;
        var entry := pending[n];
        assert pending[n..][1..] == pending[n + 1..];
        if entry.expiresAt > now {
          ClashInFront(entry, kept, reservation);
          kept := [entry] + kept;
          replayed := replayed || Clashes(entry.reservation, reservation);
        } else {
          assert [] + kept == kept;
        }
      }
      assert pending[0..] == pending;
    }

    method VerifyAndReserveAt(q: JoinRequest, now: u64, keyPackageFits: bool)
      returns (answer: Result<VerifiedAdmission, AdmissionError>)
      modifies this
      ensures (State(), answer) == VerifyAndReserve(old(State()), q, now, keyPackageFits)
    {
      if !RequestTimely(policy, q, now) || !keyPackageFits {
        return Err(Rejected);
      }
      var reservation := ReplayReservation(q.generation, q.requestId, q.nonce, nextReservation);
      var kept, replayed := Scan(reservation, now);
      if replayed {
        return Err(Replay);
      }
      if |kept| >= policy.pendingRequests {
        return Err(LedgerFull);
      }
      var following := CheckedAdd(nextReservation, 1);
      if following.None? {
        return Err(LedgerFull);
      }
      pending := kept + [PendingReplay(reservation, q.expiresAt)];
      nextReservation := following.value;
      return Ok(VerifiedAdmission(q, reservation));
    }

    method Remove(r: ReplayReservation) returns (answer: Result<(), AdmissionError>)
      modifies this`pending
      ensures (State(), answer) == RemoveReservation(old(State()), r)
    {
      var at := 0;
      while at < |pending| && pending[at].reservation != r
        invariant 0 <= at <= |pending|
        invariant forall j :: 0 <= j < at ==> pending[j].reservation != r
      {
        at := at + 1;
      }
      if at == |pending| {
        return Err(ReplayMismatch);
      }
      assert InLedger(State(), r);
      pending := pending[..at] + pending[at + 1..];
      return Ok(());
    }
  }

  /** A prepared Add: it borrows both owners, and gives both reservations back unless it was applied. */
  class PreparedAddition {
    const verifier: CapabilityAdmissionVerifier
    const registry: InvitationRegistry
    const replay: ReplayReservation
    const invitation: InvitationReservation
    const requestExpiresAt: u64
    const endpointExpiresAt: u64
    var at: u64

    ghost function State(): Desk
      reads this, verifier, registry
    {
      Desk(verifier.State(), registry.State(), Prepared(replay, invitation, at, requestExpiresAt, endpointExpiresAt))
    }

    constructor (verifier: CapabilityAdmissionVerifier, registry: InvitationRegistry, approved: ApprovedAdmission, now: u64)
      requires InLedger(verifier.State(), approved.verified.reservation)
      requires ValidateReservation(registry.State(), approved.invitation, now).Ok?
      ensures this.verifier == verifier && this.registry == registry
      ensures HeldOk(State()) && State().held.replay == approved.verified.reservation
      ensures State().held.invitation == approved.invitation && at == now
      ensures State().held.requestExpiresAt == approved.verified.request.expiresAt
      ensures State().held.endpointExpiresAt == approved.verified.request.endpointExpiresAt
    {
      this.verifier := verifier;
      this.registry := registry;
      replay := approved.verified.reservation;
      invitation := approved.invitation;
      requestExpiresAt := approved.verified.request.expiresAt;
      endpointExpiresAt := approved.verified.request.endpointExpiresAt;
      at := now;
    }

    /** What happens when the value goes away without having been applied. */
    method GiveBack()
      modifies verifier`pending, registry
      ensures Desk(verifier.State(), registry.State(), Free) == DropPrepared(old(State()), at)
    {
      var released := registry.Settle(invitation, Available, at);
      var removed := verifier.Remove(replay);
    }

    /** Applies the Add without durable storage. */
    method ApplyAt(now: u64, groupApplies: bool) returns (answer: Result<(), AdmissionError>)
      modifies this`at, verifier`pending, registry
      ensures (Desk(verifier.State(), registry.State(), Free), answer) == Apply(old(State()), now, groupApplies)
    {
      at := now;
      if requestExpiresAt <= now || endpointExpiresAt <= now
         || ValidateReservation(Registry(registry.policy, registry.records), invitation, now).Err? || !groupApplies
      {
        GiveBack();
        return Err(Rejected);
      }
      var consumed := registry.Settle(invitation, Consumed, now);
      assert consumed.Ok?;
      return Ok(());
    }

    /** Applies the Add with durable storage: on success both reservations pass to a settlement, untouched. */
    method ApplyAwaitingAt(now: u64, groupApplies: bool) returns (answer: Result<Settlement, AdmissionError>)
      modifies this`at, verifier`pending, registry
      ensures answer.Ok? ==>
                && answer.value.verifier == verifier && answer.value.registry == registry
                && (answer.value.State(), Ok(())) == ApplyAwaiting(old(State()), now, groupApplies)
      ensures answer.Err? ==>
                (Desk(verifier.State(), registry.State(), Free), Err(answer.error))
                == ApplyAwaiting(old(State()), now, groupApplies)
    {
      at := now;
      if requestExpiresAt <= now || endpointExpiresAt <= now
         || ValidateReservation(Registry(registry.policy, registry.records), invitation, now).Err? || !groupApplies
      {
        GiveBack();
        return Err(Rejected);
      }
      var settlement := new Settlement(verifier, registry, replay, invitation, now);
      return Ok(settlement);
    }
  }

  /** An applied Add whose durable write is still to be decided. */
  class Settlement {
    const verifier: CapabilityAdmissionVerifier
    const registry: InvitationRegistry
    const replay: ReplayReservation
    const invitation: InvitationReservation
    const at: u64

    ghost function State(): Desk
      reads this, verifier, registry
    {
      Desk(verifier.State(), registry.State(), Awaiting(replay, invitation, at))
    }

    constructor (verifier: CapabilityAdmissionVerifier, registry: InvitationRegistry, replay: ReplayReservation,
                 invitation: InvitationReservation, at: u64)
      ensures this.verifier == verifier && this.registry == registry
      ensures State() == Desk(verifier.State(), registry.State(), Awaiting(replay, invitation, at))
    {
      this.verifier := verifier;
      this.registry := registry;
      this.replay := replay;
      this.invitation := invitation;
      this.at := at;
    }

    method Finalize() returns (answer: Result<(), AdmissionError>)
      modifies registry
      ensures (Desk(verifier.State(), registry.State(), Free), answer) == FinalizeCommitted(old(State()))
    {
      var consumed := registry.Settle(invitation, Consumed, at);
      return if consumed.Ok? then Ok(()) else Err(ReplayMismatch);
    }

    method ReleaseProvenUncommitted() returns (answer: Result<(), AdmissionError>)
      modifies verifier`pending, registry
      ensures (Desk(verifier.State(), registry.State(), Free), answer) == ReleaseUncommitted(old(State()))
    {
      var released := registry.Settle(invitation, Available, at);
      var removed := verifier.Remove(replay);
      return if released.Ok? && removed.Ok? then Ok(()) else Err(ReplayMismatch);
    }
  }
}
