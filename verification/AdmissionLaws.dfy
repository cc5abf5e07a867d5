/** All-or-nothing admission around an MLS Add, over every run. */
module AdmissionLaws {
  import opened Common
  import opened Admission

  // ---------- the ledger ----------

  lemma {:induction false} UnexpiredKeeps(pending: seq<PendingReplay>, now: u64)
    ensures |Unexpired(pending, now)| <= |pending|
    ensures forall e :: e in Unexpired(pending, now) <==> e in pending && e.expiresAt > now
  {
    if pending != [] {
      UnexpiredKeeps(pending[1..], now);
      assert forall e :: e in pending <==> e == pending[0] || e in pending[1..];
    }
  }

  /** Filtering keeps the order of the ledger. */
  lemma {:induction false} UnexpiredApart(pending: seq<PendingReplay>, now: u64)
    requires forall i: nat, k: nat :: Apart(pending, i, k)
    ensures forall i: nat, k: nat :: Apart(Unexpired(pending, now), i, k)
  {
    if pending != [] {
      var rest := pending[1..];
      forall i: nat, k: nat ensures Apart(rest, i, k) {
        assert Apart(pending, i + 1, k + 1);
      }
      UnexpiredApart(rest, now);
      UnexpiredKeeps(rest, now);
      var kept := Unexpired(rest, now);
      if pending[0].expiresAt > now {
        var all := [pending[0]] + kept;
        forall i: nat, k: nat ensures Apart(all, i, k) {
          if 0 < i < k < |all| {
            assert Apart(kept, i - 1, k - 1);
          } else if 0 == i < k < |all| {
            assert kept[k - 1] in rest;
            var j :| 0 <= j < |rest| && rest[j] == kept[k - 1];
            assert Apart(pending, 0, j + 1);
          }
        }
        assert Unexpired(pending, now) == all;
      } else {
        assert Unexpired(pending, now) == kept;
      }
    }
  }

  lemma VerifyKeepsLedger(v: Verifier, q: JoinRequest, now: u64, fits: bool)
    requires LedgerOk(v)
    ensures LedgerOk(VerifyAndReserve(v, q, now, fits).0)
  {
    var (after, answer) := VerifyAndReserve(v, q, now, fits);
    if answer.Ok? {
      var kept := Unexpired(v.pending, now);
      UnexpiredKeeps(v.pending, now);
      UnexpiredApart(v.pending, now);
      forall i | 0 <= i < |kept| ensures kept[i].reservation.reservationId < v.nextReservation {
        assert kept[i] in v.pending;
      }
      forall i: nat, k: nat ensures Apart(after.pending, i, k) {
        assert Apart(kept, i, k);
      }
    }
  }

  /** Removing a reservation takes out exactly that one entry and keeps the rest in order. */
  lemma RemoveTakesOne(v: Verifier, r: ReplayReservation)
    requires LedgerOk(v)
    ensures LedgerOk(RemoveReservation(v, r).0) && !InLedger(RemoveReservation(v, r).0, r)
    ensures InLedger(v, r) ==> |RemoveReservation(v, r).0.pending| == |v.pending| - 1
    ensures forall e :: e in RemoveReservation(v, r).0.pending <==> e in v.pending && e.reservation != r
  {
    if InLedger(v, r) {
      var at := Position(v.pending, r);
      var after := v.pending[..at] + v.pending[at + 1..];
      RemovedApart(v.pending, at, after);
      RemovedRest(v.pending, at, r);
      forall i | 0 <= i < |after| ensures after[i] in v.pending {
        assert after[i] == v.pending[if i < at then i else i + 1];
      }
    }
  }

  lemma RemovedApart(pending: seq<PendingReplay>, at: nat, after: seq<PendingReplay>)
    requires at < |pending| && after == pending[..at] + pending[at + 1..]
    requires forall i: nat, k: nat :: Apart(pending, i, k)
    ensures forall i: nat, k: nat :: Apart(after, i, k)
  {
    forall i: nat, k: nat ensures Apart(after, i, k) {
      assert Apart(pending, if i < at then i else i + 1, if k < at then k else k + 1);
    }
  }

  lemma RemovedRest(pending: seq<PendingReplay>, at: nat, r: ReplayReservation)
    requires at < |pending| && pending[at].reservation == r && forall i: nat, k: nat :: Apart(pending, i, k)
    ensures forall e :: e in pending[..at] + pending[at + 1..] <==> e in pending && e.reservation != r
  {
    hide Apart;
    var after := pending[..at] + pending[at + 1..];
    forall j | 0 <= j < |pending| && j != at ensures pending[j].reservation != r {
      OthersDiffer(pending, at, j);
    }
    forall e | e in after ensures e in pending && e.reservation != r {
      var i :| 0 <= i < |after| && after[i] == e;
      assert e == pending[if i < at then i else i + 1];
    }
    forall e | e in pending && e.reservation != r ensures e in after {
      var j :| 0 <= j < |pending| && pending[j] == e;
      assert e == after[if j < at then j else j - 1];
    }
  }

  lemma OthersDiffer(pending: seq<PendingReplay>, at: nat, j: nat)
    requires at < |pending| && j < |pending| && j != at && forall i: nat, k: nat :: Apart(pending, i, k)
    ensures pending[j].reservation != pending[at].reservation
  {
    assert Apart(pending, if j < at then j else at, if j < at then at else j);
  }

  // ---------- the registry ----------

  lemma {:induction false} FewerKeys<T>(a: set<T>, b: set<T>)
    requires a <= b
    ensures |a| <= |b|
    decreases |a|
  {
    if x :| x in a {
      FewerKeys(a - {x}, b - {x});
    }
  }

  lemma IssueKeepsRegistry(g: Registry, i: Invitation, now: u64)
    requires RegistryOk(g)
    ensures RegistryOk(IssueInvitation(g, i, now).0)
  {
    var (after, answer) := IssueInvitation(g, i, now);
    if answer.Ok? {
      assert after.records.Keys == Live(g, now) + {i.id};
    }
  }

  lemma LifecycleKeepsRegistry(g: Registry, id: nat, l: Lifecycle)
    requires RegistryOk(g) && id in g.records
    ensures RegistryOk(SetLifecycle(g, id, l))
  {
    assert SetLifecycle(g, id, l).records.Keys == g.records.Keys;
    FewerKeys(SetLifecycle(g, id, l).records.Keys, g.records.Keys);
  }

  lemma ReleaseKeepsRegistry(g: Registry, r: InvitationReservation, now: u64)
    requires RegistryOk(g)
    ensures RegistryOk(ReleaseInvitation(g, r, now).0) && RegistryOk(ConsumeInvitation(g, r, now).0)
  {
    if ValidateReservation(g, r, now).Ok? {
      LifecycleKeepsRegistry(g, r.invitationId, Available);
      LifecycleKeepsRegistry(g, r.invitationId, Consumed);
    }
  }

  // ---------- every step ----------

  lemma ReleaseBothKeeps(d: Desk, replay: ReplayReservation, invitation: InvitationReservation, now: u64)
    requires LedgerOk(d.verifier) && RegistryOk(d.registry)
    ensures Inv(ReleaseBoth(d, replay, invitation, now))
  {
    RemoveTakesOne(d.verifier, replay);
    ReleaseKeepsRegistry(d.registry, invitation, now);
  }

  lemma NextKeepsInv(d: Desk, step: Step)
    requires Inv(d) && Enabled(d, step)
    ensures Inv(Next(d, step))
  {
    hide LedgerOk, RegistryOk, RemoveReservation, VerifyAndReserve, IssueInvitation, InLedger;
    match step
    case Issuing(i, now) => IssueKeepsRegistry(d.registry, i, now);
    case Verifying(q, now, fits) => VerifyKeepsLedger(d.verifier, q, now, fits);
    case ReleasingVerified(replay) => RemoveTakesOne(d.verifier, replay);
    case Approving(i, a, now) =>
      RemoveTakesOne(d.verifier, a.reservation);
      if i.id in d.registry.records {
        LifecycleKeepsRegistry(d.registry, i.id, Reserved(a.request.requestId));
      }
    case Deciding(pending, approve, now) =>
      ReleaseBothKeeps(d, pending.verified.reservation, pending.invitation, now);
      ReleaseKeepsRegistry(d.registry, pending.invitation, now);
    case Preparing(approved, now, prepares) =>
      ReleaseBothKeeps(d, approved.verified.reservation, approved.invitation, now);
      ReleaseKeepsRegistry(d.registry, approved.invitation, now);
    case Dropping => ReleaseBothKeeps(d, d.held.replay, d.held.invitation, d.held.at);
    case Applying(now, applies) =>
      ReleaseBothKeeps(d, d.held.replay, d.held.invitation, now);
      ReleaseKeepsRegistry(d.registry, d.held.invitation, now);
    case ApplyingAwaiting(now, applies) => ReleaseBothKeeps(d, d.held.replay, d.held.invitation, now);
    case Finalizing => ReleaseKeepsRegistry(d.registry, d.held.invitation, d.held.at);
    case ReleasingUncommitted => ReleaseBothKeeps(d, d.held.replay, d.held.invitation, d.held.at);
    case Forgetting =>
  }

  lemma {:induction false} RunKeepsInv(d: Desk, steps: seq<Step>)
    requires Inv(d) && AllEnabled(d, steps)
    ensures Inv(Run(d, steps))
    decreases |steps|
  {
    hide Inv, Next, Enabled;
    if steps != [] {
      NextKeepsInv(d, steps[0]);
      RunKeepsInv(Next(d, steps[0]), steps[1..]);
    }
  }

  // ---------- all or nothing ----------

  /** The invitation record after both reservations were given back: free again, unless it had expired. */
  function GivenBack(g: Registry, r: InvitationReservation, now: u64): Registry
    requires r.invitationId in g.records
  {
    if g.records[r.invitationId].expiresAt > now then SetLifecycle(g, r.invitationId, Available) else g
  }

  /**
   Applying a prepared Add in any reachable state. Either a result is returned: the invitation is Consumed
   and the replay entry stays. Or none is: the replay entry is gone and the invitation is free again unless
   it expired. Consumption after the checks cannot fail.
   */
  lemma ApplyIsAllOrNothing(d: Desk, now: u64, groupApplies: bool)
    requires Inv(d) && d.held.Prepared?
    ensures var (after, answer) := Apply(d, now, groupApplies);
            && after.held.Free?
            && (answer.Ok? <==> MayApply(d, now) && groupApplies)
            && (answer.Ok? ==>
                  && after.verifier == d.verifier && InLedger(after.verifier, d.held.replay)
                  && after.registry == SetLifecycle(d.registry, d.held.invitation.invitationId, Consumed))
            && (answer.Err? ==>
                  && answer.error == Rejected && !InLedger(after.verifier, d.held.replay)
                  && after.registry == GivenBack(d.registry, d.held.invitation, now))
  {
    hide LedgerOk, RegistryOk, RemoveReservation, InLedger;
    RemoveTakesOne(d.verifier, d.held.replay);
  }

  /** The durable form holds both reservations instead, untouched, until it is settled. */
  lemma ApplyAwaitingHolds(d: Desk, now: u64, groupApplies: bool)
    requires Inv(d) && d.held.Prepared?
    ensures var (after, answer) := ApplyAwaiting(d, now, groupApplies);
            && (answer.Ok? <==> MayApply(d, now) && groupApplies)
            && (answer.Ok? ==>
                  && after.verifier == d.verifier && after.registry == d.registry && InLedger(d.verifier, d.held.replay)
                  && after.held == Awaiting(d.held.replay, d.held.invitation, now))
            && (answer.Err? ==>
                  && answer.error == Rejected && after.held.Free? && !InLedger(after.verifier, d.held.replay)
                  && after.registry == GivenBack(d.registry, d.held.invitation, now))
  {
    hide LedgerOk, RegistryOk, RemoveReservation, InLedger;
    RemoveTakesOne(d.verifier, d.held.replay);
  }

  /** Both settlements of an applied Add always succeed. */
  lemma SettlementsSucceed(d: Desk)
    requires Inv(d) && d.held.Awaiting?
    ensures var (after, answer) := FinalizeCommitted(d);
            && answer.Ok? && after.verifier == d.verifier && InLedger(after.verifier, d.held.replay)
            && after.registry == SetLifecycle(d.registry, d.held.invitation.invitationId, Consumed)
    ensures var (after, answer) := ReleaseUncommitted(d);
            && answer.Ok? && !InLedger(after.verifier, d.held.replay)
            && |after.verifier.pending| == |d.verifier.pending| - 1
            && after.registry == SetLifecycle(d.registry, d.held.invitation.invitationId, Available)
  {
    hide LedgerOk, RegistryOk, InLedger;
    RemoveTakesOne(d.verifier, d.held.replay);
  }

  // ---------- no path leaks a reservation ----------

  /** Asking for approval reserves the invitation for that request, or takes the replay entry out and nothing else. */
  lemma ApprovalReservesOrReleases(d: Desk, i: Invitation, a: VerifiedAdmission, now: u64)
    requires Inv(d) && d.held.Free?
    ensures var (after, answer) := ReserveForApproval(d, i, a, now);
            && (answer.Ok? ==>
                  && after.verifier == d.verifier && InLedger(after.verifier, a.reservation)
                  && answer.value.verified == a
                  && ValidateReservation(after.registry, answer.value.invitation, now).Ok?
                  && i.id in d.registry.records && d.registry.records[i.id].lifecycle.Available?
                  && after.registry == SetLifecycle(d.registry, i.id, Reserved(a.request.requestId)))
            && (answer.Err? ==> after.registry == d.registry && !InLedger(after.verifier, a.reservation))
  {
    hide LedgerOk, RegistryOk, RemoveReservation, InLedger;
    RemoveTakesOne(d.verifier, a.reservation);
  }

  /** The registry after a release that a decision or a preparation makes. */
  function ReleasedIfValid(g: Registry, r: InvitationReservation, now: u64): Registry {
    if ValidateReservation(g, r, now).Ok? then SetLifecycle(g, r.invitationId, Available) else g
  }

  /** A decision keeps both reservations exactly when it approves in time; otherwise it gives both back. */
  lemma DecisionKeepsOrReleases(d: Desk, pending: ApprovedAdmission, approve: bool, now: u64)
    requires Inv(d) && d.held.Free?
    ensures var (after, answer) := Decide(d, pending, approve, now);
            var q := pending.verified.request;
            && (answer == Ok(Some(pending)) <==>
                  && InLedger(d.verifier, pending.verified.reservation) && approve
                  && q.expiresAt > now && q.endpointExpiresAt > now
                  && ValidateReservation(d.registry, pending.invitation, now).Ok?)
            && (answer == Ok(Some(pending)) ==> after == d)
            && (answer != Ok(Some(pending)) ==>
                  && !InLedger(after.verifier, pending.verified.reservation)
                  && after.registry == ReleasedIfValid(d.registry, pending.invitation, now))
  {
    hide LedgerOk, RegistryOk, RemoveReservation, InLedger;
    RemoveTakesOne(d.verifier, pending.verified.reservation);
  }

  /** A preparation holds both reservations or gives both back. */
  lemma PreparationHoldsOrReleases(d: Desk, a: ApprovedAdmission, now: u64, groupPrepares: bool)
    requires Inv(d) && d.held.Free?
    ensures var (after, answer) := PrepareAdd(d, a, now, groupPrepares);
            && (answer.Ok? ==>
                  && after.verifier == d.verifier && after.registry == d.registry && after.held.Prepared?
                  && HeldOk(after) && MayApply(after, now))
            && (answer.Err? ==>
                  && after.held.Free? && !InLedger(after.verifier, a.verified.reservation)
                  && after.registry == ReleasedIfValid(d.registry, a.invitation, now))
  {
    hide LedgerOk, RegistryOk, RemoveReservation, InLedger;
    RemoveTakesOne(d.verifier, a.verified.reservation);
  }

  // ---------- consumed for good ----------

  lemma ConsumedStays(d: Desk, step: Step, id: nat)
    requires Enabled(d, step) && id in d.registry.records && d.registry.records[id].lifecycle.Consumed?
    ensures var after := Next(d, step).registry;
            || (id in after.records && after.records[id] == d.registry.records[id])
            || (step.Issuing? && d.registry.records[id].expiresAt <= step.now)
  {
    hide RemoveReservation, VerifyAndReserve, InLedger;
  }

  /** The clock of issuing, as far as it reached past a given moment. */
  predicate IssuesBefore(steps: seq<Step>, limit: u64) {
    forall i :: 0 <= i < |steps| ==> steps[i].Issuing? ==> steps[i].now < limit
  }

  /** A consumed invitation stays consumed in every run, until an issue happens at or after its expiry. */
  lemma {:induction false} ConsumedForGood(d: Desk, steps: seq<Step>, id: nat)
    requires AllEnabled(d, steps) && id in d.registry.records && d.registry.records[id].lifecycle.Consumed?
    requires IssuesBefore(steps, d.registry.records[id].expiresAt)
    ensures id in Run(d, steps).registry.records && Run(d, steps).registry.records[id] == d.registry.records[id]
    decreases |steps|
  {
    hide Next, Enabled;
    if steps != [] {
      ConsumedStays(d, steps[0], id);
      assert IssuesBefore(steps[1..], d.registry.records[id].expiresAt);
      ConsumedForGood(Next(d, steps[0]), steps[1..], id);
    }
  }
}
