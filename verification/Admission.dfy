/**
 In-memory capability admission: the replay ledger of the verifier and the invitation registry, reserved
 together before an MLS Add and consumed or released together around it. Identifiers are represented by
 their big-endian value.
 */
module Admission {
  import opened Common

  // ---------- the invitation registry ----------

  datatype Schema = V1 | V2

  datatype Lifecycle = Available | Reserved(requestId: nat) | Consumed

  datatype InvitationRecord = InvitationRecord(
    schema: Schema, expiresAt: u64, inviterKey: nat, signature: nat, lifecycle: Lifecycle)

  datatype InvitationPolicy = InvitationPolicy(lifetimeSeconds: u64, futureSkewSeconds: u64, liveInvitations: nat)

  datatype Registry = Registry(policy: InvitationPolicy, records: map<nat, InvitationRecord>)

  datatype Invitation = Invitation(
    schema: Schema, id: nat, challenge: nat, keyId: nat, issuedAt: u64, expiresAt: u64, inviterKey: nat,
    signature: nat)

  datatype InvitationReservation = InvitationReservation(invitationId: nat, requestId: nat, signature: nat, schema: Schema)

  datatype LifecycleError =
    | ZeroJoinRequestId | DuplicateInvitationId | CapacityExceeded | UnknownInvitation
    | DescriptorMismatch | AlreadyReserved | AlreadyConsumed | NotReserved | ReservationMismatch
    | IssuedTooFarInFuture(issuedAt: u64, latestAllowed: u64)
    | Expired(expiresAt: u64, now: u64)
    | LifetimeExceedsPolicy(actual: u64, maximum: u64)

  function SaturatingAdd(a: u64, b: u64): u64 {
    if a + b < U64_LIMIT then a + b else U64_LIMIT - 1
  }

  function SaturatingSub(a: u64, b: u64): u64 {
    if a < b then 0 else a - b
  }

  function CheckTimes(p: InvitationPolicy, i: Invitation, now: u64): Result<(), LifecycleError> {
    var latestAllowed := SaturatingAdd(now, p.futureSkewSeconds);
    var lifetime := SaturatingSub(i.expiresAt, i.issuedAt);
    if i.issuedAt > latestAllowed then Err(IssuedTooFarInFuture(i.issuedAt, latestAllowed))
    else if i.expiresAt <= now then Err(Expired(i.expiresAt, now))
    else if lifetime > p.lifetimeSeconds then Err(LifetimeExceedsPolicy(lifetime, p.lifetimeSeconds))
    else Ok(())
  }

  function Live(g: Registry, now: u64): set<nat> {
    set id | id in g.records && g.records[id].expiresAt > now
  }

  function IssueInvitation(g: Registry, i: Invitation, now: u64): (Registry, Result<(), LifecycleError>) {
    if CheckTimes(g.policy, i, now).Err? then (g, Err(CheckTimes(g.policy, i, now).error))
    else if i.id in Live(g, now) then (g, Err(DuplicateInvitationId))
    else if |Live(g, now)| >= g.policy.liveInvitations then (g, Err(CapacityExceeded))
    else
      var kept := map id | id in Live(g, now) :: g.records[id];
      (g.(records := kept[i.id := InvitationRecord(i.schema, i.expiresAt, i.inviterKey, i.signature, Available)]),
       Ok(()))
  }

  predicate Matches(r: InvitationRecord, i: Invitation) {
    r.schema == i.schema && r.expiresAt == i.expiresAt && r.inviterKey == i.inviterKey && r.signature == i.signature
  }

  function SetLifecycle(g: Registry, id: nat, l: Lifecycle): Registry
    requires id in g.records
  {
    g.(records := g.records[id := g.records[id].(lifecycle := l)])
  }

  function ReserveInvitation(g: Registry, i: Invitation, requestId: nat, now: u64)
    : (Registry, Result<InvitationReservation, LifecycleError>)
  {
    if requestId == 0 then (g, Err(ZeroJoinRequestId))
    else if CheckTimes(g.policy, i, now).Err? then (g, Err(CheckTimes(g.policy, i, now).error))
    else if i.id !in g.records then (g, Err(UnknownInvitation))
    else if !Matches(g.records[i.id], i) then (g, Err(DescriptorMismatch))
    else
      match g.records[i.id].lifecycle
      case Available =>
        (SetLifecycle(g, i.id, Reserved(requestId)), Ok(InvitationReservation(i.id, requestId, i.signature, i.schema)))
      case Reserved(_) => (g, Err(AlreadyReserved))
      case Consumed => (g, Err(AlreadyConsumed))
  }

  function ValidateReservation(g: Registry, r: InvitationReservation, now: u64): Result<(), LifecycleError> {
    if r.invitationId !in g.records then Err(UnknownInvitation)
    else
      var record := g.records[r.invitationId];
      if record.expiresAt <= now then Err(Expired(record.expiresAt, now))
      else if record.schema != r.schema || record.signature != r.signature then Err(ReservationMismatch)
      else
        match record.lifecycle
        case Reserved(requestId) => if requestId == r.requestId then Ok(()) else Err(ReservationMismatch)
        case Available => Err(NotReserved)
        case Consumed => Err(AlreadyConsumed)
  }

  function ReleaseInvitation(g: Registry, r: InvitationReservation, now: u64): (Registry, Result<(), LifecycleError>) {
    var valid := ValidateReservation(g, r, now);
    if valid.Err? then (g, valid) else (SetLifecycle(g, r.invitationId, Available), Ok(()))
  }

  function ConsumeInvitation(g: Registry, r: InvitationReservation, now: u64): (Registry, Result<(), LifecycleError>) {
    var valid := ValidateReservation(g, r, now);
    if valid.Err? then (g, valid) else (SetLifecycle(g, r.invitationId, Consumed), Ok(()))
  }

  // ---------- the replay ledger ----------

  datatype AdmissionError = Rejected | Replay | LedgerFull | ReplayMismatch

  datatype AdmissionPolicy = AdmissionPolicy(lifetimeSeconds: u64, futureSkewSeconds: u64, pendingRequests: nat)

  /** The invitation generation a request belongs to. */
  datatype Generation = Generation(invitationId: nat, challenge: nat, keyId: nat, verifier: nat)

  datatype JoinRequest = JoinRequest(
    generation: Generation, requestId: nat, nonce: nat, issuedAt: u64, expiresAt: u64, endpointExpiresAt: u64,
    invitationSignature: nat)

  datatype ReplayReservation = ReplayReservation(generation: Generation, requestId: nat, nonce: nat, reservationId: u64)

  datatype PendingReplay = PendingReplay(reservation: ReplayReservation, expiresAt: u64)

  datatype Verifier = Verifier(policy: AdmissionPolicy, pending: seq<PendingReplay>, nextReservation: u64)

  datatype VerifiedAdmission = VerifiedAdmission(request: JoinRequest, reservation: ReplayReservation)

  datatype ApprovedAdmission = ApprovedAdmission(verified: VerifiedAdmission, invitation: InvitationReservation)

  function Unexpired(pending: seq<PendingReplay>, now: u64): seq<PendingReplay> {
    if pending == [] then []
    else (if pending[0].expiresAt > now then [pending[0]] else []) + Unexpired(pending[1..], now)
  }

  predicate Clashes(a: ReplayReservation, b: ReplayReservation) {
    a.generation == b.generation && (a.requestId == b.requestId || a.nonce == b.nonce)
  }

  predicate RequestTimely(p: AdmissionPolicy, q: JoinRequest, now: u64) {
    && q.issuedAt <= q.expiresAt
    && q.issuedAt <= SaturatingAdd(now, p.futureSkewSeconds)
    && q.expiresAt > now && q.endpointExpiresAt > now
    && q.expiresAt - q.issuedAt <= p.lifetimeSeconds
  }

  /** `keyPackageFits` says that the key package is valid and is the one the request names. */
  function VerifyAndReserve(v: Verifier, q: JoinRequest, now: u64, keyPackageFits: bool)
    : (Verifier, Result<VerifiedAdmission, AdmissionError>)
  {
    if !RequestTimely(v.policy, q, now) || !keyPackageFits then (v, Err(Rejected))
    else
      var reservation := ReplayReservation(q.generation, q.requestId, q.nonce, v.nextReservation);
      var kept := Unexpired(v.pending, now);
      if exists i :: 0 <= i < |kept| && Clashes(kept[i].reservation, reservation) then (v, Err(Replay))
      else if |kept| >= v.policy.pendingRequests then (v, Err(LedgerFull))
      else if CheckedAdd(v.nextReservation, 1).None? then (v, Err(LedgerFull))
      else
        (v.(pending := kept + [PendingReplay(reservation, q.expiresAt)],
            nextReservation := CheckedAdd(v.nextReservation, 1).value),
         Ok(VerifiedAdmission(q, reservation)))
  }

  predicate InLedger(v: Verifier, r: ReplayReservation) {
    exists i :: 0 <= i < |v.pending| && v.pending[i].reservation == r
  }

  function Position(pending: seq<PendingReplay>, r: ReplayReservation): (i: nat)
    requires exists i :: 0 <= i < |pending| && pending[i].reservation == r
    ensures i < |pending| && pending[i].reservation == r
    ensures forall j :: 0 <= j < i ==> pending[j].reservation != r
  {
    if pending[0].reservation == r then 0
    else
      assert exists i :: 0 <= i < |pending[1..]| && pending[1..][i].reservation == r by {
        var i :| 0 <= i < |pending| && pending[i].reservation == r;
        assert pending[1..][i - 1].reservation == r;
      }
      1 + Position(pending[1..], r)
  }

  function RemoveReservation(v: Verifier, r: ReplayReservation): (Verifier, Result<(), AdmissionError>) {
    if !InLedger(v, r) then (v, Err(ReplayMismatch))
    else
      var i := Position(v.pending, r);
      (v.(pending := v.pending[..i] + v.pending[i + 1..]), Ok(()))
  }

  // ---------- both together ----------

  /** A prepared Add borrows both owners until it is applied or dropped; so does an applied one until it settles. */
  datatype Held =
    | Free
    | Prepared(replay: ReplayReservation, invitation: InvitationReservation, at: u64,
               requestExpiresAt: u64, endpointExpiresAt: u64)
    | Awaiting(replay: ReplayReservation, invitation: InvitationReservation, at: u64)

  datatype Desk = Desk(verifier: Verifier, registry: Registry, held: Held)

  /** Releases both reservations, whatever becomes of either. */
  function ReleaseBoth(d: Desk, replay: ReplayReservation, invitation: InvitationReservation, now: u64): Desk {
    Desk(RemoveReservation(d.verifier, replay).0, ReleaseInvitation(d.registry, invitation, now).0, Free)
  }

  function ReserveForApproval(d: Desk, i: Invitation, a: VerifiedAdmission, now: u64)
    : (Desk, Result<ApprovedAdmission, AdmissionError>)
    requires d.held.Free?
  {
    var q := a.request;
    if !InLedger(d.verifier, a.reservation) then (d, Err(ReplayMismatch))
    else if q.generation != Generation(i.id, i.challenge, i.keyId, i.inviterKey)
            || q.invitationSignature != i.signature || !i.schema.V2?
    then (d.(verifier := RemoveReservation(d.verifier, a.reservation).0), Err(Rejected))
    else
      var (registry, answer) := ReserveInvitation(d.registry, i, q.requestId, now);
      if answer.Err? then (d.(verifier := RemoveReservation(d.verifier, a.reservation).0), Err(Rejected))
      else (d.(registry := registry), Ok(ApprovedAdmission(a, answer.value)))
  }

  /** The manual decision: true approves. */
  function Decide(d: Desk, pending: ApprovedAdmission, approve: bool, now: u64)
    : (Desk, Result<Option<ApprovedAdmission>, AdmissionError>)
    requires d.held.Free?
  {
    var q := pending.verified.request;
    if !InLedger(d.verifier, pending.verified.reservation) then
      (d.(registry := ReleaseInvitation(d.registry, pending.invitation, now).0), Err(ReplayMismatch))
    else if !approve then
      var released := ReleaseInvitation(d.registry, pending.invitation, now);
      (ReleaseBoth(d, pending.verified.reservation, pending.invitation, now),
       if released.1.Err? then Err(ReplayMismatch) else Ok(None))
    else if q.expiresAt <= now || q.endpointExpiresAt <= now
            || ValidateReservation(d.registry, pending.invitation, now).Err?
    then (ReleaseBoth(d, pending.verified.reservation, pending.invitation, now), Err(Rejected))
    else (d, Ok(Some(pending)))
  }

  /** `groupPrepares` says whether the MLS group prepares the Add. */
  function PrepareAdd(d: Desk, a: ApprovedAdmission, now: u64, groupPrepares: bool): (Desk, Result<(), AdmissionError>)
    requires d.held.Free?
  {
    var q := a.verified.request;
    if !InLedger(d.verifier, a.verified.reservation) then
      (d.(registry := ReleaseInvitation(d.registry, a.invitation, now).0), Err(ReplayMismatch))
    else if q.expiresAt <= now || q.endpointExpiresAt <= now || ValidateReservation(d.registry, a.invitation, now).Err?
            || !groupPrepares
    then (ReleaseBoth(d, a.verified.reservation, a.invitation, now), Err(Rejected))
    else (d.(held := Prepared(a.verified.reservation, a.invitation, now, q.expiresAt, q.endpointExpiresAt)), Ok(()))
  }

  predicate MayApply(d: Desk, now: u64)
    requires d.held.Prepared?
  {
    && d.held.requestExpiresAt > now && d.held.endpointExpiresAt > now
    && ValidateReservation(d.registry, d.held.invitation, now).Ok?
  }

  /** Dropping a prepared Add. */
  function DropPrepared(d: Desk, now: u64): Desk
    requires d.held.Prepared?
  {
    ReleaseBoth(d, d.held.replay, d.held.invitation, now)
  }

  /** Apply without durable storage: a result is returned only after the invitation is consumed. */
  function Apply(d: Desk, now: u64, groupApplies: bool): (Desk, Result<(), AdmissionError>)
    requires d.held.Prepared?
  {
    if !MayApply(d, now) || !groupApplies then (DropPrepared(d, now), Err(Rejected))
    else
      var (registry, answer) := ConsumeInvitation(d.registry, d.held.invitation, now);
      if answer.Ok? then (d.(registry := registry, held := Free), Ok(()))
      else (Desk(RemoveReservation(d.verifier, d.held.replay).0, registry, Free), Err(ReplayMismatch))
  }

  /** Apply with durable storage: both reservations are held until the write is known. */
  function ApplyAwaiting(d: Desk, now: u64, groupApplies: bool): (Desk, Result<(), AdmissionError>)
    requires d.held.Prepared?
  {
    if !MayApply(d, now) || !groupApplies then (DropPrepared(d, now), Err(Rejected))
    else (d.(held := Awaiting(d.held.replay, d.held.invitation, now)), Ok(()))
  }

  function FinalizeCommitted(d: Desk): (Desk, Result<(), AdmissionError>)
    requires d.held.Awaiting?
  {
    var (registry, answer) := ConsumeInvitation(d.registry, d.held.invitation, d.held.at);
    (d.(registry := registry, held := Free), if answer.Ok? then Ok(()) else Err(ReplayMismatch))
  }

  function ReleaseUncommitted(d: Desk): (Desk, Result<(), AdmissionError>)
    requires d.held.Awaiting?
  {
    var released := ReleaseInvitation(d.registry, d.held.invitation, d.held.at);
    var removed := RemoveReservation(d.verifier, d.held.replay);
    (Desk(removed.0, released.0, Free), if released.1.Ok? && removed.1.Ok? then Ok(()) else Err(ReplayMismatch))
  }

  // ---------- runs ----------

  datatype Step =
    | Issuing(i: Invitation, now: u64)
    | Verifying(q: JoinRequest, now: u64, keyPackageFits: bool)
    | ReleasingVerified(replay: ReplayReservation)
    | Approving(i: Invitation, a: VerifiedAdmission, now: u64)
    | Deciding(pending: ApprovedAdmission, approve: bool, now: u64)
    | Preparing(approved: ApprovedAdmission, now: u64, groupPrepares: bool)
    | Dropping
    | Applying(now: u64, groupApplies: bool)
    | ApplyingAwaiting(now: u64, groupApplies: bool)
    | Finalizing
    | ReleasingUncommitted
    | Forgetting

  /** The borrow discipline: while an Add is prepared or awaits durability, nobody else touches the owners. */
  predicate Enabled(d: Desk, step: Step) {
    match step
    case Dropping | Applying(_, _) | ApplyingAwaiting(_, _) => d.held.Prepared?
    case Finalizing | ReleasingUncommitted | Forgetting => d.held.Awaiting?
    case _ => d.held.Free?
  }

  function Next(d: Desk, step: Step): Desk
    requires Enabled(d, step)
  {
    match step
    case Issuing(i, now) => d.(registry := IssueInvitation(d.registry, i, now).0)
    case Verifying(q, now, fits) => d.(verifier := VerifyAndReserve(d.verifier, q, now, fits).0)
    case ReleasingVerified(replay) => d.(verifier := RemoveReservation(d.verifier, replay).0)
    case Approving(i, a, now) => ReserveForApproval(d, i, a, now).0
    case Deciding(pending, approve, now) => Decide(d, pending, approve, now).0
    case Preparing(approved, now, prepares) => PrepareAdd(d, approved, now, prepares).0
    case Dropping => DropPrepared(d, d.held.at)
    case Applying(now, applies) => Apply(d, now, applies).0
    case ApplyingAwaiting(now, applies) => ApplyAwaiting(d, now, applies).0
    case Finalizing => FinalizeCommitted(d).0
    case ReleasingUncommitted => ReleaseUncommitted(d).0
    case Forgetting => d.(held := Free)
  }

  predicate AllEnabled(d: Desk, steps: seq<Step>)
    decreases |steps|
  {
    steps == [] || (Enabled(d, steps[0]) && AllEnabled(Next(d, steps[0]), steps[1..]))
  }

  function Run(d: Desk, steps: seq<Step>): Desk
    requires AllEnabled(d, steps)
    decreases |steps|
  {
    if steps == [] then d else Run(Next(d, steps[0]), steps[1..])
  }

  // ---------- the invariant ----------

  predicate Apart(pending: seq<PendingReplay>, i: nat, k: nat) {
    i < k < |pending| ==>
      && !Clashes(pending[i].reservation, pending[k].reservation)
      && pending[i].reservation.reservationId < pending[k].reservation.reservationId
  }

  /** The ledger is bounded, ordered by reservation number, and free of replays. */
  ghost predicate LedgerOk(v: Verifier) {
    && |v.pending| <= v.policy.pendingRequests
    && (forall i :: 0 <= i < |v.pending| ==> v.pending[i].reservation.reservationId < v.nextReservation)
    && (forall i: nat, k: nat :: Apart(v.pending, i, k))
  }

  predicate RegistryOk(g: Registry) {
    |g.records| <= g.policy.liveInvitations
  }

  /** What a borrow guarantees: both reservations are still there, and an applied one was in time. */
  predicate HeldOk(d: Desk) {
    match d.held
    case Free => true
    case Prepared(replay, invitation, at, _, _) =>
      InLedger(d.verifier, replay) && ValidateReservation(d.registry, invitation, at).Ok?
    case Awaiting(replay, invitation, at) =>
      InLedger(d.verifier, replay) && ValidateReservation(d.registry, invitation, at).Ok?
  }

  ghost predicate Inv(d: Desk) {
    LedgerOk(d.verifier) && RegistryOk(d.registry) && HeldOk(d)
  }
}
