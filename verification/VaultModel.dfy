/** The mutating vault, proved against the vault functions. Clock readings are parameters. */
module VaultModel {
  import opened Common
  import opened WireObjects
  import opened Vault
  import VaultLaws

  class SessionVaultModel {
    const instance: nat
    const policy: VaultPolicy
    const inboxPolicy: InboxPolicy
    var active: u64
    var nextGeneration: u64
    var nextInsertion: u64
    var lifecycle: Lifecycle
    var inbox: map<Bytes, InboxRecord>
    var totalBytes: nat

    ghost function Abstract(): State
      reads this
    {
      State(instance, policy, inboxPolicy, active, nextGeneration, nextInsertion, lifecycle, inbox, totalBytes)
    }

    ghost predicate Valid()
      reads this
    {
      Inv(Abstract())
    }

    constructor (instance: nat, policy: VaultPolicy, inboxPolicy: InboxPolicy)
      ensures Valid() && Abstract() == New(instance, policy, inboxPolicy)
    {
      this.instance := instance;
      this.policy := policy;
      this.inboxPolicy := inboxPolicy;
      active := 0;
      nextGeneration := 0;
      nextInsertion := 0;
      lifecycle := Sealed;
      inbox := map[];
      totalBytes := 0;
    }

    /** Drops expired envelopes one by one; the saturating subtraction never saturates. */
    method PruneExpired(now: u64)
      requires totalBytes == Sum(inbox)
      modifies this`inbox, this`totalBytes
      ensures inbox == Unexpired(old(inbox), now) && totalBytes == Sum(inbox)
    {
      hide SumOver;
      var expired := set k | k in inbox && inbox[k].expiresAt <= now;
      while expired != {}
        invariant expired <= inbox.Keys <= old(inbox).Keys
        invariant forall k :: k in inbox ==> inbox[k] == old(inbox)[k]
        invariant forall k :: k in old(inbox) ==> (k !in inbox ==> old(inbox)[k].expiresAt <= now)
        invariant forall k :: k in inbox ==> (inbox[k].expiresAt <= now <==> k in expired)
        invariant totalBytes == Sum(inbox)
        decreases |expired|
      {
        var k :| k in expired;
        SumRemove(inbox, k);
        var length := |inbox[k].encoded|;
        assert length <= totalBytes;
        inbox := inbox - {k};
        totalBytes := if length <= totalBytes then totalBytes - length else 0;
        expired := expired - {k};
      }
    }

    method PollAt(now: u64)
      requires Valid()
      modifies this
      ensures Valid() && Abstract() == Poll(old(Abstract()), now)
    {
      hide SumOver, InboxOk;
      VaultLaws.PollKeepsInv(Abstract(), now);
      VaultLaws.InboxTotals(Abstract());
      if TimedOut(lifecycle, now) {
        lifecycle := Sealed;
        active := 0;
      }
      PruneExpired(now);
    }

    method BeginUnlockAt(session: nat, polled: u64, now: u64) returns (answer: Result<UnlockAttempt, VaultError>)
      requires Valid()
      modifies this
      ensures Valid() && (Abstract(), answer) == BeginUnlock(old(Abstract()), session, polled, now)
    {
      hide Inv, Poll;
      VaultLaws.NextKeepsInv(Abstract(), BeginningUnlock(session, polled, now));
      PollAt(polled);
      if !lifecycle.Sealed? {
        return Err(Rejected);
      }
      var generation := CheckedAdd(nextGeneration, 1);
      if generation.None? {
        return Err(Rejected);
      }
      nextGeneration := generation.value;
      var expiresAt := CheckedAdd(now, policy.unlockTimeout);
      if expiresAt.None? {
        return Err(Rejected);
      }
      lifecycle := Unlocking(session, generation.value, expiresAt.value);
      active := generation.value;
      return Ok(UnlockAttempt(instance, session, generation.value));
    }

    method CompleteUnlockAt(c: UnlockCompletion, now: u64, completedAt: u64) returns (answer: Result<(), VaultError>)
      requires Valid()
      modifies this`lifecycle, this`active
      ensures Valid() && (Abstract(), answer) == CompleteUnlock(old(Abstract()), c, now, completedAt)
    {
      hide Inv;
      VaultLaws.NextKeepsInv(Abstract(), CompletingUnlock(c, now, completedAt));
      if !lifecycle.Unlocking? {
        return Err(ReservationMismatch);
      }
      var was := lifecycle;
      if c.instance != instance || c.session != was.session || c.generation != was.generation {
        return Err(ReservationMismatch);
      }
      lifecycle := Sealed;
      active := 0;
      if was.expiresAt <= now {
        return Err(Rejected);
      }
      if c.outcome.Failed? {
        return Err(c.outcome.error);
      }
      if !c.outcome.suffices {
        return Err(ProviderFailure);
      }
      if was.expiresAt <= completedAt {
        return Err(Rejected);
      }
      var idle := CheckedAdd(completedAt, policy.idleTimeout);
      if idle.None? {
        return Err(Rejected);
      }
      lifecycle := Opened(was.session, was.generation, idle.value);
      return Ok(());
    }

    method BeginRelockAt(session: nat, polled: u64) returns (answer: Result<RelockAttempt, VaultError>)
      requires Valid()
      modifies this
      ensures Valid() && (Abstract(), answer) == BeginRelock(old(Abstract()), session, polled)
    {
      hide Inv, Poll;
      VaultLaws.NextKeepsInv(Abstract(), BeginningRelock(session, polled));
      PollAt(polled);
      if !lifecycle.Opened? || lifecycle.session != session {
        return Err(Rejected);
      }
      var generation := CheckedAdd(nextGeneration, 1);
      if generation.None? {
        return Err(Rejected);
      }
      nextGeneration := generation.value;
      lifecycle := Relocking(session, generation.value);
      return Ok(RelockAttempt(session, generation.value));
    }

    method CompleteRelockWith(a: RelockAttempt) returns (answer: Result<(), VaultError>)
      requires Valid()
      modifies this`lifecycle
      ensures Valid() && (Abstract(), answer) == CompleteRelock(old(Abstract()), a)
    {
      hide Inv;
      VaultLaws.NextKeepsInv(Abstract(), CompletingRelock(a));
      if !lifecycle.Relocking? || lifecycle.session != a.session || lifecycle.generation != a.generation {
        return Err(ReservationMismatch);
      }
      lifecycle := Sealed;
      return Ok(());
    }

    method ForceLockNow()
      requires Valid()
      modifies this`lifecycle, this`active
      ensures Valid() && Abstract() == ForceLock(old(Abstract()))
    {
      hide Inv;
      VaultLaws.NextKeepsInv(Abstract(), Forcing);
      lifecycle := Sealed;
      active := 0;
    }

    method PerformPrivilegedAt(session: nat, polled: u64, now: u64) returns (answer: Result<(), VaultError>)
      requires Valid()
      modifies this
      ensures Valid() && (Abstract(), answer) == PerformPrivileged(old(Abstract()), session, polled, now)
    {
      hide Inv, Poll;
      VaultLaws.NextKeepsInv(Abstract(), Privileged(session, polled, now));
      PollAt(polled);
      if !lifecycle.Opened? || lifecycle.session != session {
        return Err(Rejected);
      }
      var refreshed := CheckedAdd(now, policy.idleTimeout);
      if refreshed.None? {
        return Err(Rejected);
      }
      lifecycle := lifecycle.(idleExpiresAt := refreshed.value);
      return Ok(());
    }

    method BeginOpaqueImport(session: nat, polled: u64) returns (answer: Result<Option<PendingImport>, VaultError>)
      requires Valid()
      modifies this
      ensures Valid() && (Abstract(), answer) == BeginImport(old(Abstract()), session, polled)
    {
      hide Inv, Poll, DecodeEnvelope;
      VaultLaws.PollKeepsInv(Abstract(), polled);
      VaultLaws.ImportAlwaysDecodes(Abstract(), session, polled);
      PollAt(polled);
      if !lifecycle.Opened? || lifecycle.session != session {
        return Err(Rejected);
      }
      if inbox == map[] {
        return Ok(None);
      }
      assert inbox.Keys != {};
      FirstExists(inbox.Keys);
      var id :| id in inbox.Keys && IsFirst(inbox.Keys, id);
      FirstIsUnique(inbox.Keys, id, First(inbox.Keys));
      var envelope := DecodeEnvelope(inbox[id].encoded);
      assert envelope.Ok?;
      return Ok(Some(PendingImport(instance, session, lifecycle.generation, id, inbox[id].insertion, envelope.value)));
    }

    method AppendOpaque(encoded: Bytes, polled: u64, now: u64) returns (answer: Result<AppendOutcome, VaultError>)
      requires Valid()
      modifies this
      ensures Valid() && (Abstract(), answer) == Append(old(Abstract()), encoded, polled, now)
    {
      hide Inv, Poll, DecodeEnvelope;
      VaultLaws.AppendKeepsInv(Abstract(), encoded, polled, now);
      PollAt(polled);
      if |encoded| == 0 || |encoded| > MAX_ENCODED_OPAQUE_ENVELOPE_BYTES {
        return Err(Rejected);
      }
      var decoded := DecodeEnvelope(encoded);
      if decoded.Err? || AllZero(decoded.value.id) {
        return Err(Rejected);
      }
      var envelope := decoded.value;
      if envelope.expiresAt <= now || envelope.expiresAt - now > inboxPolicy.lifetimeSeconds {
        return Err(Rejected);
      }
      if envelope.id in inbox {
        return if inbox[envelope.id].encoded == encoded then Ok(AlreadyStored) else Err(Rejected);
      }
      if |inbox| >= inboxPolicy.envelopes {
        return Err(CapacityExceeded);
      }
      if totalBytes + |encoded| > inboxPolicy.totalBytes {
        return Err(CapacityExceeded);
      }
      var insertion := CheckedAdd(nextInsertion, 1);
      if insertion.None? {
        return Err(CapacityExceeded);
      }
      nextInsertion := insertion.value;
      inbox := inbox[envelope.id := InboxRecord(encoded, envelope.expiresAt, insertion.value)];
      totalBytes := totalBytes + |encoded|;
      return Ok(Stored);
    }

    method CompleteOpaqueImport(pending: PendingImport, polled: u64, now: u64) returns (answer: Result<(), VaultError>)
      requires Valid()
      modifies this
      ensures Valid() && (Abstract(), answer) == CompleteImport(old(Abstract()), pending, polled, now)
    {
      hide Inv, Poll;
      VaultLaws.ImportKeepsInv(Abstract(), pending, polled, now);
      PollAt(polled);
      if !lifecycle.Opened? {
        return Err(ReservationMismatch);
      }
      if pending.instance != instance || lifecycle.session != pending.session
         || lifecycle.generation != pending.openGeneration
      {
        return Err(ReservationMismatch);
      }
      if pending.envelopeId !in inbox {
        return Err(ReservationMismatch);
      }
      var record := inbox[pending.envelopeId];
      if record.insertion != pending.insertion || record.expiresAt <= now || totalBytes < |record.encoded| {
        return Err(ReservationMismatch);
      }
      inbox := inbox - {pending.envelopeId};
      totalBytes := totalBytes - |record.encoded|;
      return Ok(());
    }
  }
}
