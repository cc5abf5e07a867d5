/** The mutating inviter store: every method does to its fields what the store function says. */
module InMemoryStore {
  import opened Common
  import opened InviterStore
  import opened WireObjects
  import InviterLaws

  class InMemoryInviterJoinStore {
    const policy: Policy
    const scope: nat
    var nextLease: u64
    var reservations: map<Bytes, Reservation>
    var retired: seq<(Bytes, Bytes)>
    var commits: map<Bytes, Record>

    ghost function State(): Store
      reads this
    {
      Store(policy, scope, nextLease, reservations, retired, commits)
    }

    constructor (policy: Policy, scope: nat)
      requires policy.Valid()
      ensures State() == New(policy, scope)
    {
      this.policy := policy;
      this.scope := scope;
      nextLease := 1;
      reservations := map[];
      retired := [];
      commits := map[];
    }

    method RetireReservation(invitationId: Bytes)
      requires invitationId in reservations
      modifies this
      ensures State() == Retire(old(State()), invitationId)
    {
      var gone := reservations[invitationId];
      reservations := reservations - {invitationId};
      if |retired| >= HARD_MAXIMUM_RETIRED_RESERVATIONS {
        retired := retired[1..];
      }
      retired := retired + [(invitationId, gone.generation)];
    }

    /** Scans the reservations for the expired one with the least (expiry, id). */
    method OldestExpired(now: u64) returns (found: Option<Bytes>)
      ensures found.Some? ==> IsOldest(reservations, now, reservations.Keys, found.value)
      ensures found.None? ==> forall k :: !IsExpired(reservations, now, k)
    {
      found := None;
      var todo := reservations.Keys;
      while todo != {}
        invariant todo <= reservations.Keys
        invariant found.None? ==> forall k :: k !in todo ==> !IsExpired(reservations, now, k)
        invariant found.Some? ==> IsOldest(reservations, now, reservations.Keys - todo, found.value)
        decreases |todo|
      {
        var id :| id in todo;
        todo := todo - {id};
        if IsExpired(reservations, now, id) {
          if found.None? {
            found := Some(id);
          } else {
            BeforeIsTotal(id, found.value);
            if Earlier(reservations, id, found.value) {
              forall k | k in reservations.Keys - todo && IsExpired(reservations, now, k) && k != id
                ensures Earlier(reservations, id, k)
              {
                if k != found.value {
                  InviterStore.EarlierIsTransitive(reservations, id, found.value, k);
                }
              }
              found := Some(id);
            }
          }
        }
      }
    }

    method SeedReservation(r: ReservedInvitation, now: u64) returns (answer: Result<(), TransactionError>)
      modifies this
      ensures (State(), answer) == Seed(old(State()), r, now)
    {
      var id := r.invitationId;
      if exists t :: t in commits && commits[t].join.invitationId == id {
        return Err(Conflict);
      }
      if r.expiresAt <= now {
        return Err(Expired);
      }
      if (id, r.generation) in retired {
        return Err(Conflict);
      }
      if id in reservations && (reservations[id].expiresAt > now || reservations[id].generation == r.generation) {
        return Err(Conflict);
      }
      if id in reservations {
        RetireReservation(id);
      } else if |reservations| >= policy.transactions {
        var victim := OldestExpired(now);
        if victim.None? {
          return Err(CapacityExceeded);
        }
        assert IsExpired(reservations, now, victim.value);
        OldestIsUnique(reservations, now, reservations.Keys, victim.value, Oldest(reservations, now));
        RetireReservation(victim.value);
      }
      reservations := reservations[id := Reservation(r.generation, r.requestId, r.expiresAt)];
      return Ok(());
    }

    /** The input checks of a commit, one after the other. */
    method ValidateCommit(c: JoinCommit) returns (ok: bool)
      ensures ok <==> ValidCommit(policy, c)
    {
      hide DecodeEnvelope, DecodeEndpoint;
      var j := c.join;
      if AllZero(c.transactionId) || AllZero(j.invitationId) || AllZero(j.generation) || AllZero(j.requestId)
         || AllZero(j.fingerprint)
      {
        return false;
      }
      if |j.groupId| == 0 || |j.groupId| > policy.groupIdBytes || |j.approval| == 0
         || |j.approval| > policy.approvalBytes || |j.mlsState| == 0 || |j.mlsState| > policy.mlsStateBytes
      {
        return false;
      }
      if |j.welcome| == 0 || |j.welcome| > policy.welcomeBytes || |j.endpoint| == 0
         || |j.endpoint| > policy.endpointBytes
      {
        return false;
      }
      if CheckedAdd(j.epochBefore, 1) != Some(j.epochAfter) {
        return false;
      }
      var envelope := DecodeEnvelope(j.welcome);
      if envelope.Err? {
        return false;
      }
      var endpoint := DecodeEndpoint(j.endpoint);
      if endpoint.Err? {
        return false;
      }
      return !AllZero(envelope.value.id) && j.outboxExpiresAt <= envelope.value.expiresAt
             && envelope.value.expiresAt <= endpoint.value.expiresAt;
    }

    method IsReplay(j: Join) returns (replayed: bool)
      ensures replayed == Replayed(State(), j)
    {
      replayed :=
        exists t :: t in commits
          && ((commits[t].join.invitationId == j.invitationId && commits[t].join.generation == j.generation)
              || commits[t].join.requestId == j.requestId);
    }

    method CommitWithFault(c: JoinCommit, now: u64, fault: CommitFault)
      returns (answer: Result<CommitOutcome, TransactionError>)
      modifies this
      ensures (State(), answer) == Commit(old(State()), c, now, fault)
    {
      hide ValidCommit, Replayed;
      var j := c.join;
      var valid := ValidateCommit(c);
      if !valid {
        return Err(InvalidInput);
      }
      if c.transactionId in commits {
        return if commits[c.transactionId].join == j then Ok(AlreadyCommitted) else Err(Conflict);
      }
      if j.outboxExpiresAt <= now {
        return Err(Expired);
      }
      if |commits| >= policy.transactions {
        return Err(CapacityExceeded);
      }
      if j.invitationId !in reservations {
        return Err(ReservationMismatch);
      }
      var reservation := reservations[j.invitationId];
      if reservation.generation != j.generation || reservation.requestId != j.requestId {
        return Err(ReservationMismatch);
      }
      if reservation.expiresAt <= now {
        return Err(Expired);
      }
      if fault == AfterReservationCheck {
        return Err(InjectedFailure);
      }
      var replayed := IsReplay(j);
      if replayed {
        return Err(Conflict);
      }
      if fault == AfterReplayCheck {
        return Err(InjectedFailure);
      }
      if fault == AfterApprovalStaging {
        return Err(InjectedFailure);
      }
      if fault == AfterMlsStaging {
        return Err(InjectedFailure);
      }
      if fault == AfterOutboxStaging {
        return Err(InjectedFailure);
      }
      reservations := reservations - {j.invitationId};
      commits := commits[c.transactionId := Record(j, Pending, 0)];
      return if fault == AfterCommit then Err(OutcomeUnknown) else Ok(Committed);
    }

    method LeaseDelivery(t: Bytes, now: u64, seconds: u64) returns (answer: Result<DeliveryLease, TransactionError>)
      modifies this
      ensures (State(), answer) == Lease(old(State()), t, now, seconds)
    {
      if AllZero(t) || seconds == 0 || seconds > policy.leaseSeconds {
        return Err(InvalidInput);
      }
      var ends := CheckedAdd(now, seconds);
      if ends.None? {
        return Err(InvalidInput);
      }
      if t !in commits {
        return Err(DeliveryUnavailable);
      }
      var record := commits[t];
      if record.join.outboxExpiresAt <= now || ends.value > record.join.outboxExpiresAt {
        return Err(Expired);
      }
      if record.outbox.Exhausted? {
        return Err(AttemptsExhausted);
      }
      if !Available(record.outbox, now) {
        return Err(DeliveryUnavailable);
      }
      if record.attempts >= policy.deliveryAttempts {
        commits := commits[t := record.(outbox := Exhausted)];
        return Err(AttemptsExhausted);
      }
      var sequence := nextLease;
      var following := CheckedAdd(nextLease, 1);
      if following.None? {
        return Err(DeliveryUnavailable);
      }
      nextLease := following.value;
      commits := commits[t := Record(record.join, Leased(sequence, ends.value), record.attempts + 1)];
      return Ok(DeliveryLease(scope, t, sequence));
    }

    method ReadPayload(lease: DeliveryLease, now: u64) returns (answer: Result<DeliveryPayload, TransactionError>)
      ensures answer == Payload(State(), lease, now)
    {
      if lease.scope != scope || lease.transactionId !in commits {
        return Err(LeaseMismatch);
      }
      var record := commits[lease.transactionId];
      if record.join.outboxExpiresAt <= now {
        return Err(Expired);
      }
      if record.outbox.Leased? && record.outbox.sequence == lease.sequence && record.outbox.expiresAt > now {
        return Ok(DeliveryPayload(record.join.welcome, record.join.endpoint, record.join.outboxExpiresAt));
      }
      return Err(LeaseMismatch);
    }

    method FailDelivery(lease: DeliveryLease) returns (answer: Result<(), TransactionError>)
      modifies this
      ensures (State(), answer) == Fail(old(State()), lease)
    {
      if lease.scope != scope || lease.transactionId !in commits {
        return Err(LeaseMismatch);
      }
      var record := commits[lease.transactionId];
      if record.outbox.Leased? && record.outbox.sequence == lease.sequence {
        var next := if record.attempts >= policy.deliveryAttempts then Exhausted else Pending;
        commits := commits[lease.transactionId := record.(outbox := next)];
        return Ok(());
      }
      return Err(LeaseMismatch);
    }

    method CompleteDelivery(lease: DeliveryLease, now: u64) returns (answer: Result<(), TransactionError>)
      modifies this
      ensures (State(), answer) == Complete(old(State()), lease, now)
    {
      if lease.scope != scope || lease.transactionId !in commits {
        return Err(LeaseMismatch);
      }
      var record := commits[lease.transactionId];
      match record.outbox {
        case Leased(sequence, expiresAt) =>
          if sequence == lease.sequence && expiresAt > now && record.join.outboxExpiresAt > now {
            commits := commits[lease.transactionId := record.(outbox := Delivered(sequence))];
            return Ok(());
          }
        case Delivered(sequence) =>
          if sequence == lease.sequence {
            return Ok(());
          }
        case _ =>
      }
      return Err(LeaseMismatch);
    }

    /** Marks every record whose attempts ran out while nobody holds it. */
    method SweepExhausted(now: u64)
      modifies this`commits
      ensures State() == Sweep(old(State()), now)
    {
      var todo := commits.Keys;
      while todo != {}
        invariant todo <= commits.Keys == old(commits).Keys
        invariant forall t :: t in todo ==> commits[t] == old(commits)[t]
        invariant forall t :: t in commits && t !in todo ==> commits[t] == SweptRecord(policy, old(commits)[t], now)
        decreases |todo|
      {
        var t :| t in todo;
        todo := todo - {t};
        if Spent(policy, commits[t], now) {
          commits := commits[t := commits[t].(outbox := Exhausted)];
        }
      }
      assert commits == Sweep(old(State()), now).commits;
    }

    /** The first transaction id, in key order, that is listed as pending. */
    method FirstPending(now: u64) returns (found: Option<Bytes>)
      ensures found.None? <==> Waiting(State(), now) == {}
      ensures found.Some? ==> IsFirst(Waiting(State(), now), found.value)
    {
      hide Before;
      found := None;
      var todo := commits.Keys;
      ghost var waiting := Waiting(State(), now);
      while todo != {}
        invariant todo <= commits.Keys
        invariant found.None? ==> waiting <= todo
        invariant found.Some? ==> IsFirst(waiting - todo, found.value)
        decreases |todo|
      {
        var t :| t in todo;
        ghost var before := todo;
        todo := todo - {t};
        var record := commits[t];
        if record.join.outboxExpiresAt > now && record.attempts < policy.deliveryAttempts
           && Available(record.outbox, now)
        {
          assert waiting - todo == (waiting - before) + {t};
          if found.None? {
            found := Some(t);
          } else {
            FirstAfterAdding(waiting - before, found.value, t);
            if Before(t, found.value) {
              found := Some(t);
            }
          }
        } else {
          assert waiting - todo == waiting - before;
        }
      }
      assert waiting - todo == waiting;
    }

    method LeaseNextWelcome(now: u64, seconds: u64) returns (answer: Result<Option<LeasedWelcome>, PortError>)
      modifies this
      ensures (State(), answer) == LeaseNext(old(State()), now, seconds)
    {
      if seconds == 0 || seconds > policy.leaseSeconds || CheckedAdd(now, seconds).None? {
        return Err(PortErrorOf(InvalidInput));
      }
      SweepExhausted(now);
      var t := FirstPending(now);
      if t.None? {
        return Ok(None);
      }
      ghost var swept := State();
      FirstIsUnique(Waiting(swept, now), t.value, First(Waiting(swept, now)));
      InviterLaws.HandOutIsLease(swept, t.value, now, seconds);
      var lease := LeaseDelivery(t.value, now, seconds);
      if lease.Err? {
        return Err(PortErrorOf(lease.error));
      }
      var payload := ReadPayload(lease.value, now);
      assert payload.Ok?;
      return Ok(Some(LeasedWelcome(lease.value, payload.value)));
    }

    method ReportAccepted(lease: DeliveryLease, now: u64) returns (answer: Result<(), PortError>)
      modifies this
      ensures State() == Complete(old(State()), lease, now).0
      ensures answer.Ok? <==> Complete(old(State()), lease, now).1.Ok?
      ensures answer.Err? ==> answer.error == PortConflict && State() == old(State())
    {
      var done := CompleteDelivery(lease, now);
      answer := if done.Ok? then Ok(()) else Err(PortErrorOf(done.error));
    }

    method ReportFailed(lease: DeliveryLease) returns (answer: Result<(), PortError>)
      modifies this
      ensures State() == Fail(old(State()), lease).0
      ensures answer.Ok? <==> Fail(old(State()), lease).1.Ok?
      ensures answer.Err? ==> answer.error == PortConflict && State() == old(State())
    {
      var done := FailDelivery(lease);
      answer := if done.Ok? then Ok(()) else Err(PortErrorOf(done.error));
    }
  }
}
