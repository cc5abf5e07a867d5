/** The session vault: generation-fenced unlocking and a sealed inbox with exact byte accounting. */
module Vault {
  import opened Common
  import opened WireObjects

  datatype VaultError = Rejected | ReservationMismatch | CapacityExceeded | ProviderFailure

  datatype VaultPolicy = VaultPolicy(unlockTimeout: u64, idleTimeout: u64)

  datatype InboxPolicy = InboxPolicy(envelopes: nat, totalBytes: nat, lifetimeSeconds: u64)

  datatype Lifecycle =
    | Sealed
    | Unlocking(session: nat, generation: u64, expiresAt: u64)
    | Opened(session: nat, generation: u64, idleExpiresAt: u64)
    | Relocking(session: nat, generation: u64)

  datatype InboxRecord = InboxRecord(encoded: Bytes, expiresAt: u64, insertion: u64)

  /** `active` is the generation shared with unlock work outside the vault; `instance` is its identity. */
  datatype State = State(
    instance: nat, policy: VaultPolicy, inboxPolicy: InboxPolicy, active: u64,
    nextGeneration: u64, nextInsertion: u64, lifecycle: Lifecycle,
    inbox: map<Bytes, InboxRecord>, totalBytes: nat)

  datatype UnlockAttempt = UnlockAttempt(instance: nat, session: nat, generation: u64)

  /** Unlock work ends with a key whose protection suffices or not, or with an error. */
  datatype UnlockOutcome = Ready(suffices: bool) | Failed(error: VaultError)

  datatype UnlockCompletion = UnlockCompletion(instance: nat, session: nat, generation: u64, outcome: UnlockOutcome)

  datatype RelockAttempt = RelockAttempt(session: nat, generation: u64)

  datatype PendingImport = PendingImport(
    instance: nat, session: nat, openGeneration: u64, envelopeId: Bytes, insertion: u64, envelope: OpaqueEnvelope)

  datatype AppendOutcome = Stored | AlreadyStored

  function New(instance: nat, policy: VaultPolicy, inboxPolicy: InboxPolicy): State {
    State(instance, policy, inboxPolicy, 0, 0, 0, Sealed, map[], 0)
  }

  // ---------- byte totals ----------

  ghost function SumOver(inbox: map<Bytes, InboxRecord>, keys: set<Bytes>): nat
    requires keys <= inbox.Keys
  {
    if keys == {} then 0
    else
      var k :| k in keys;
      |inbox[k].encoded| + SumOver(inbox, keys - {k})
  }

  ghost function Sum(inbox: map<Bytes, InboxRecord>): nat {
    SumOver(inbox, inbox.Keys)
  }

  lemma {:induction false} SumPicks(inbox: map<Bytes, InboxRecord>, keys: set<Bytes>, k: Bytes)
    requires keys <= inbox.Keys && k in keys
    ensures SumOver(inbox, keys) == |inbox[k].encoded| + SumOver(inbox, keys - {k})
    decreases |keys|
  {
    var first :| first in keys && SumOver(inbox, keys) == |inbox[first].encoded| + SumOver(inbox, keys - {first});
    if first != k {
      SumPicks(inbox, keys - {first}, k);
      SumPicks(inbox, keys - {k}, first);
      assert keys - {first} - {k} == keys - {k} - {first};
    }
  }

  lemma {:induction false} SumDependsOnKeys(a: map<Bytes, InboxRecord>, b: map<Bytes, InboxRecord>, keys: set<Bytes>)
    requires keys <= a.Keys && keys <= b.Keys && forall k :: k in keys ==> a[k] == b[k]
    ensures SumOver(a, keys) == SumOver(b, keys)
    decreases |keys|
  {
    if keys != {} {
      var k :| k in keys;
      SumPicks(a, keys, k);
      SumPicks(b, keys, k);
      SumDependsOnKeys(a, b, keys - {k});
    }
  }

  lemma SumInsert(inbox: map<Bytes, InboxRecord>, k: Bytes, record: InboxRecord)
    requires k !in inbox
    ensures Sum(inbox[k := record]) == Sum(inbox) + |record.encoded|
  {
    var after := inbox[k := record];
    SumPicks(after, after.Keys, k);
    assert after.Keys - {k} == inbox.Keys;
    SumDependsOnKeys(after, inbox, inbox.Keys);
  }

  lemma SumRemove(inbox: map<Bytes, InboxRecord>, k: Bytes)
    requires k in inbox
    ensures Sum(inbox - {k}) == Sum(inbox) - |inbox[k].encoded|
  {
    var after := inbox - {k};
    SumPicks(inbox, inbox.Keys, k);
    assert inbox.Keys - {k} == after.Keys;
    SumDependsOnKeys(after, inbox, after.Keys);
  }

  // ---------- operations ----------

  function Unexpired(inbox: map<Bytes, InboxRecord>, now: u64): map<Bytes, InboxRecord> {
    map k | k in inbox && inbox[k].expiresAt > now :: inbox[k]
  }

  predicate TimedOut(l: Lifecycle, now: u64) {
    match l
    case Unlocking(_, _, expiresAt) => expiresAt <= now
    case Opened(_, _, idleExpiresAt) => idleExpiresAt <= now
    case _ => false
  }

  /** Applies timeouts and drops expired envelopes; the vault model's loop is proved equal to this. */
  ghost function Poll(v: State, now: u64): State {
    var kept := Unexpired(v.inbox, now);
    var timed := if TimedOut(v.lifecycle, now) then v.(lifecycle := Sealed, active := 0) else v;
    timed.(inbox := kept, totalBytes := Sum(kept))
  }

  /** `polled` and `now` are successive clock readings. */
  ghost function BeginUnlock(v: State, session: nat, polled: u64, now: u64): (State, Result<UnlockAttempt, VaultError>) {
    var p := Poll(v, polled);
    if !p.lifecycle.Sealed? then (p, Err(Rejected))
    else if CheckedAdd(p.nextGeneration, 1).None? then (p, Err(Rejected))
    else
      var generation := CheckedAdd(p.nextGeneration, 1).value;
      var counted := p.(nextGeneration := generation);
      if CheckedAdd(now, p.policy.unlockTimeout).None? then (counted, Err(Rejected))
      else
        (counted.(lifecycle := Unlocking(session, generation, CheckedAdd(now, p.policy.unlockTimeout).value),
                  active := generation),
         Ok(UnlockAttempt(p.instance, session, generation)))
  }

  function CompleteUnlock(v: State, c: UnlockCompletion, now: u64, completedAt: u64): (State, Result<(), VaultError>) {
    if !v.lifecycle.Unlocking? then (v, Err(ReservationMismatch))
    else if c.instance != v.instance || c.session != v.lifecycle.session || c.generation != v.lifecycle.generation then
      (v, Err(ReservationMismatch))
    else
      var sealed := v.(lifecycle := Sealed, active := 0);
      var expiresAt := v.lifecycle.expiresAt;
      if expiresAt <= now then (sealed, Err(Rejected))
      else if c.outcome.Failed? then (sealed, Err(c.outcome.error))
      else if !c.outcome.suffices then (sealed, Err(ProviderFailure))
      else if expiresAt <= completedAt || CheckedAdd(completedAt, v.policy.idleTimeout).None? then (sealed, Err(Rejected))
      else
        (sealed.(lifecycle := Opened(v.lifecycle.session, v.lifecycle.generation,
                                     CheckedAdd(completedAt, v.policy.idleTimeout).value)),
         Ok(()))
  }

  ghost function PerformPrivileged(v: State, session: nat, polled: u64, now: u64): (State, Result<(), VaultError>) {
    var p := Poll(v, polled);
    if !p.lifecycle.Opened? || p.lifecycle.session != session then (p, Err(Rejected))
    else if CheckedAdd(now, p.policy.idleTimeout).None? then (p, Err(Rejected))
    else
      (p.(lifecycle := p.lifecycle.(idleExpiresAt := CheckedAdd(now, p.policy.idleTimeout).value)), Ok(()))
  }

  ghost function BeginRelock(v: State, session: nat, polled: u64): (State, Result<RelockAttempt, VaultError>) {
    var p := Poll(v, polled);
    if !p.lifecycle.Opened? || p.lifecycle.session != session then (p, Err(Rejected))
    else if CheckedAdd(p.nextGeneration, 1).None? then (p, Err(Rejected))
    else
      var generation := CheckedAdd(p.nextGeneration, 1).value;
      (p.(nextGeneration := generation, lifecycle := Relocking(session, generation)),
       Ok(RelockAttempt(session, generation)))
  }

  function CompleteRelock(v: State, a: RelockAttempt): (State, Result<(), VaultError>) {
    if !v.lifecycle.Relocking? || v.lifecycle != Relocking(a.session, a.generation) then (v, Err(ReservationMismatch))
    else (v.(lifecycle := Sealed), Ok(()))
  }

  function ForceLock(v: State): State {
    v.(lifecycle := Sealed, active := 0)
  }

  /** The envelope an append stores, or why it is refused. */
  function Admissible(v: State, encoded: Bytes, now: u64): Result<OpaqueEnvelope, VaultError> {
    if |encoded| == 0 || |encoded| > MAX_ENCODED_OPAQUE_ENVELOPE_BYTES then Err(Rejected)
    else
      match DecodeEnvelope(encoded)
      case Err(_) => Err(Rejected)
      case Ok(envelope) =>
        if AllZero(envelope.id) || envelope.expiresAt <= now
           || envelope.expiresAt - now > v.inboxPolicy.lifetimeSeconds
        then Err(Rejected)
        else Ok(envelope)
  }

  ghost function Append(v: State, encoded: Bytes, polled: u64, now: u64): (State, Result<AppendOutcome, VaultError>) {
    var p := Poll(v, polled);
    match Admissible(p, encoded, now)
    case Err(error) => (p, Err(error))
    case Ok(envelope) =>
      if envelope.id in p.inbox then
        (p, if p.inbox[envelope.id].encoded == encoded then Ok(AlreadyStored) else Err(Rejected))
      else if |p.inbox| >= p.inboxPolicy.envelopes then (p, Err(CapacityExceeded))
      else if p.totalBytes + |encoded| > p.inboxPolicy.totalBytes then (p, Err(CapacityExceeded))
      else if CheckedAdd(p.nextInsertion, 1).None? then (p, Err(CapacityExceeded))
      else
        var insertion := CheckedAdd(p.nextInsertion, 1).value;
        (p.(nextInsertion := insertion,
            inbox := p.inbox[envelope.id := InboxRecord(encoded, envelope.expiresAt, insertion)],
            totalBytes := p.totalBytes + |encoded|),
         Ok(Stored))
  }

  ghost function First(keys: set<Bytes>): (key: Bytes)
    requires keys != {}
    ensures IsFirst(keys, key)
  {
    FirstExists(keys);
    var key :| IsFirst(keys, key);
    key
  }

  ghost function BeginImport(v: State, session: nat, polled: u64): (State, Result<Option<PendingImport>, VaultError>) {
    var p := Poll(v, polled);
    if !p.lifecycle.Opened? || p.lifecycle.session != session then (p, Err(Rejected))
    else if p.inbox == map[] then (p, Ok(None))
    else
      var id := First(p.inbox.Keys);
      match DecodeEnvelope(p.inbox[id].encoded)
      case Err(_) => (p, Err(Rejected))
      case Ok(envelope) =>
        (p, Ok(Some(PendingImport(p.instance, session, p.lifecycle.generation, id, p.inbox[id].insertion, envelope))))
  }

  predicate ImportFits(p: State, pending: PendingImport, now: u64) {
    && p.lifecycle.Opened? && pending.instance == p.instance
    && p.lifecycle.session == pending.session && p.lifecycle.generation == pending.openGeneration
    && pending.envelopeId in p.inbox
    && var record := p.inbox[pending.envelopeId];
       record.insertion == pending.insertion && record.expiresAt > now && p.totalBytes >= |record.encoded|
  }

  ghost function CompleteImport(v: State, pending: PendingImport, polled: u64, now: u64): (State, Result<(), VaultError>) {
    var p := Poll(v, polled);
    if !ImportFits(p, pending, now) then (p, Err(ReservationMismatch))
    else
      (p.(inbox := p.inbox - {pending.envelopeId},
          totalBytes := p.totalBytes - |p.inbox[pending.envelopeId].encoded|),
       Ok(()))
  }

  // ---------- runs ----------

  datatype Step =
    | Polling(now: u64)
    | BeginningUnlock(session: nat, polled: u64, now: u64)
    | CompletingUnlock(c: UnlockCompletion, now: u64, completedAt: u64)
    | Privileged(session: nat, polled: u64, now: u64)
    | BeginningRelock(session: nat, polled: u64)
    | CompletingRelock(a: RelockAttempt)
    | Forcing
    | Appending(encoded: Bytes, polled: u64, now: u64)
    | BeginningImport(session: nat, polled: u64)
    | CompletingImport(pending: PendingImport, polled: u64, now: u64)

  ghost function Next(v: State, step: Step): State {
    match step
    case Polling(now) => Poll(v, now)
    case BeginningUnlock(session, polled, now) => BeginUnlock(v, session, polled, now).0
    case CompletingUnlock(c, now, completedAt) => CompleteUnlock(v, c, now, completedAt).0
    case Privileged(session, polled, now) => PerformPrivileged(v, session, polled, now).0
    case BeginningRelock(session, polled) => BeginRelock(v, session, polled).0
    case CompletingRelock(a) => CompleteRelock(v, a).0
    case Forcing => ForceLock(v)
    case Appending(encoded, polled, now) => Append(v, encoded, polled, now).0
    case BeginningImport(session, polled) => BeginImport(v, session, polled).0
    case CompletingImport(pending, polled, now) => CompleteImport(v, pending, polled, now).0
  }

  ghost function Run(v: State, steps: seq<Step>): State
    decreases |steps|
  {
    if steps == [] then v else Run(Next(v, steps[0]), steps[1..])
  }

  // ---------- the invariant ----------

  /** The shared generation is nonzero exactly while the vault is unlocking with it. */
  predicate FencesOk(v: State) {
    && (v.active != 0 <==> v.lifecycle.Unlocking?)
    && (v.lifecycle.Unlocking? ==> v.active == v.lifecycle.generation)
    && (!v.lifecycle.Sealed? ==> 0 < v.lifecycle.generation <= v.nextGeneration)
  }

  /** A stored record decodes to its own key and expiry. */
  predicate RecordOk(v: State, k: Bytes)
    requires k in v.inbox
  {
    var envelope := DecodeEnvelope(v.inbox[k].encoded);
    && envelope.Ok? && envelope.value.id == k && envelope.value.expiresAt == v.inbox[k].expiresAt
    && 0 < v.inbox[k].insertion <= v.nextInsertion
  }

  predicate InsertionsApart(inbox: map<Bytes, InboxRecord>, a: Bytes, b: Bytes) {
    a in inbox && b in inbox && a != b ==> inbox[a].insertion != inbox[b].insertion
  }

  ghost predicate InboxOk(v: State) {
    && v.totalBytes == Sum(v.inbox) && v.totalBytes <= v.inboxPolicy.totalBytes && |v.inbox| <= v.inboxPolicy.envelopes
    && (forall k :: k in v.inbox ==> RecordOk(v, k))
    && (forall a, b :: InsertionsApart(v.inbox, a, b))
  }

  ghost predicate Inv(v: State) {
    FencesOk(v) && InboxOk(v)
  }
}
