/**
 The inviter's join store: reservations, committed joins with their Welcome outbox, and the window of
 retired reservations. Each operation is a function from the store before to the store after and the
 answer; `InMemoryStore.dfy` proves the mutating object against these functions.
 */
module InviterStore {
  import opened Common
  import opened WireObjects

  const HARD_MAXIMUM_TRANSACTIONS: nat := 4096
  const HARD_MAXIMUM_RETIRED_RESERVATIONS: nat := HARD_MAXIMUM_TRANSACTIONS

  datatype Policy = Policy(
    transactions: nat, groupIdBytes: nat, approvalBytes: nat, mlsStateBytes: nat,
    welcomeBytes: nat, endpointBytes: nat, deliveryAttempts: nat, leaseSeconds: nat)
  {
    predicate Valid() {
      && 0 < transactions <= HARD_MAXIMUM_TRANSACTIONS
      && 0 < groupIdBytes <= 255
      && 0 < approvalBytes <= 4096
      && 0 < mlsStateBytes <= 2097152
      && 0 < welcomeBytes <= 65536
      && 0 < endpointBytes <= 4096
      && 0 < deliveryAttempts <= 32
      && 0 < leaseSeconds <= 3600
    }
  }

  datatype TransactionError =
    | InvalidInput | CapacityExceeded | ReservationMismatch | Conflict | Expired
    | DeliveryUnavailable | LeaseMismatch | AttemptsExhausted | InjectedFailure | OutcomeUnknown

  datatype ReservedInvitation =
    ReservedInvitation(invitationId: Bytes, generation: Bytes, requestId: Bytes, expiresAt: u64)

  /** Everything a commit says apart from its transaction id. */
  datatype Join = Join(
    invitationId: Bytes, generation: Bytes, requestId: Bytes, fingerprint: Bytes, groupId: Bytes,
    epochBefore: u64, epochAfter: u64, approval: Bytes, mlsState: Bytes,
    welcome: Bytes, endpoint: Bytes, outboxExpiresAt: u64)

  datatype JoinCommit = JoinCommit(transactionId: Bytes, join: Join)

  datatype Outbox =
    | Pending
    | Leased(sequence: u64, expiresAt: u64)
    | Delivered(sequence: u64)
    | Exhausted

  datatype Record = Record(join: Join, outbox: Outbox, attempts: nat)

  datatype Reservation = Reservation(generation: Bytes, requestId: Bytes, expiresAt: u64)

  datatype DeliveryLease = DeliveryLease(scope: nat, transactionId: Bytes, sequence: u64)

  datatype DeliveryPayload = DeliveryPayload(welcome: Bytes, endpoint: Bytes, outboxExpiresAt: u64)

  datatype CommitOutcome = Committed | AlreadyCommitted

  datatype CommitFault =
    | NoFault | AfterReservationCheck | AfterReplayCheck | AfterApprovalStaging
    | AfterMlsStaging | AfterOutboxStaging | AfterCommit

  /** `scope` stands for the identity of the store's own lease scope. */
  datatype Store = Store(
    policy: Policy, scope: nat, nextLease: u64,
    reservations: map<Bytes, Reservation>, retired: seq<(Bytes, Bytes)>, commits: map<Bytes, Record>)

  function New(policy: Policy, scope: nat): Store {
    Store(policy, scope, 1, map[], [], map[])
  }

  // ---------- validation ----------

  /** The Welcome and endpoint bytes decode, and outbox, envelope and endpoint expire in that order. */
  predicate WelcomeFits(j: Join) {
    var envelope := DecodeEnvelope(j.welcome);
    var endpoint := DecodeEndpoint(j.endpoint);
    && envelope.Ok? && endpoint.Ok?
    && !AllZero(envelope.value.id)
    && j.outboxExpiresAt <= envelope.value.expiresAt <= endpoint.value.expiresAt
  }

  predicate ValidCommit(p: Policy, c: JoinCommit) {
    var j := c.join;
    && !AllZero(c.transactionId) && !AllZero(j.invitationId) && !AllZero(j.generation)
    && !AllZero(j.requestId) && !AllZero(j.fingerprint)
    && 0 < |j.groupId| <= p.groupIdBytes
    && 0 < |j.approval| <= p.approvalBytes
    && 0 < |j.mlsState| <= p.mlsStateBytes
    && 0 < |j.welcome| <= p.welcomeBytes
    && 0 < |j.endpoint| <= p.endpointBytes
    && CheckedAdd(j.epochBefore, 1) == Some(j.epochAfter)
    && WelcomeFits(j)
  }

  // ---------- reservations ----------

  predicate InvitationCommitted(s: Store, invitationId: Bytes) {
    exists t :: t in s.commits && s.commits[t].join.invitationId == invitationId
  }

  /** The retirement queue holds at most `HARD_MAXIMUM_RETIRED_RESERVATIONS`; the oldest falls out. */
  function Push(queue: seq<(Bytes, Bytes)>, entry: (Bytes, Bytes)): seq<(Bytes, Bytes)> {
    (if |queue| >= HARD_MAXIMUM_RETIRED_RESERVATIONS then queue[1..] else queue) + [entry]
  }

  function Retire(s: Store, invitationId: Bytes): Store
    requires invitationId in s.reservations
  {
    s.(reservations := s.reservations - {invitationId},
       retired := Push(s.retired, (invitationId, s.reservations[invitationId].generation)))
  }

  function Admit(s: Store, r: ReservedInvitation): Store {
    s.(reservations := s.reservations[r.invitationId := Reservation(r.generation, r.requestId, r.expiresAt)])
  }

  predicate IsExpired(reservations: map<Bytes, Reservation>, now: u64, id: Bytes) {
    id in reservations && reservations[id].expiresAt <= now
  }

  /** Order of (expiry, id) pairs. */
  predicate Earlier(reservations: map<Bytes, Reservation>, a: Bytes, b: Bytes)
    requires a in reservations && b in reservations
  {
    reservations[a].expiresAt < reservations[b].expiresAt
    || (reservations[a].expiresAt == reservations[b].expiresAt && Before(a, b))
  }

  /** `id` has the least (expiry, id) among the expired reservations with an id in `among`. */
  predicate IsOldest(reservations: map<Bytes, Reservation>, now: u64, among: set<Bytes>, id: Bytes) {
    && id in among && IsExpired(reservations, now, id)
    && forall other ::
         other in among && IsExpired(reservations, now, other) && other != id ==> Earlier(reservations, id, other)
  }

  lemma {:induction false} OldestExists(reservations: map<Bytes, Reservation>, now: u64, among: set<Bytes>)
    requires exists k :: k in among && IsExpired(reservations, now, k)
    ensures exists id :: IsOldest(reservations, now, among, id)
  {
    var some :| some in among && IsExpired(reservations, now, some);
    var rest := among - {some};
    if k :| k in rest && IsExpired(reservations, now, k) {
      OldestExists(reservations, now, rest);
      var best :| IsOldest(reservations, now, rest, best);
      BeforeIsTotal(some, best);
      var id := if Earlier(reservations, some, best) then some else best;
      forall other | other in among && IsExpired(reservations, now, other) && other != id
        ensures Earlier(reservations, id, other)
      {
        if id == some && other != best {
          EarlierIsTransitive(reservations, some, best, other);
        }
      }
      assert IsOldest(reservations, now, among, id);
    } else {
      assert IsOldest(reservations, now, among, some);
    }
  }

  lemma EarlierIsTransitive(reservations: map<Bytes, Reservation>, a: Bytes, b: Bytes, c: Bytes)
    requires a in reservations && b in reservations && c in reservations
    requires Earlier(reservations, a, b) && Earlier(reservations, b, c)
    ensures Earlier(reservations, a, c)
  {
    if Before(a, b) && Before(b, c) {
      BeforeIsTransitive(a, b, c);
    }
  }

  lemma OldestIsUnique(reservations: map<Bytes, Reservation>, now: u64, among: set<Bytes>, a: Bytes, b: Bytes)
    requires IsOldest(reservations, now, among, a) && IsOldest(reservations, now, among, b)
    ensures a == b
  {
    BeforeIsTotal(a, b);
  }

  ghost function Oldest(reservations: map<Bytes, Reservation>, now: u64): (id: Bytes)
    requires exists k :: IsExpired(reservations, now, k)
    ensures IsOldest(reservations, now, reservations.Keys, id)
  {
    OldestExists(reservations, now, reservations.Keys);
    var id :| IsOldest(reservations, now, reservations.Keys, id);
    id
  }

  ghost function Seed(s: Store, r: ReservedInvitation, now: u64): (Store, Result<(), TransactionError>) {
    var id := r.invitationId;
    if InvitationCommitted(s, id) then (s, Err(Conflict))
    else if r.expiresAt <= now then (s, Err(Expired))
    else if (id, r.generation) in s.retired then (s, Err(Conflict))
    else if id in s.reservations
            && (s.reservations[id].expiresAt > now || s.reservations[id].generation == r.generation) then
      (s, Err(Conflict))
    else if id in s.reservations then (Admit(Retire(s, id), r), Ok(()))
    else if |s.reservations| < s.policy.transactions then (Admit(s, r), Ok(()))
    else if exists k :: IsExpired(s.reservations, now, k) then
      (Admit(Retire(s, Oldest(s.reservations, now)), r), Ok(()))
    else (s, Err(CapacityExceeded))
  }

  // ---------- the atomic commit ----------

  predicate Replayed(s: Store, j: Join) {
    exists t :: t in s.commits
      && ((s.commits[t].join.invitationId == j.invitationId && s.commits[t].join.generation == j.generation)
          || s.commits[t].join.requestId == j.requestId)
  }

  function Apply(s: Store, c: JoinCommit): Store {
    s.(reservations := s.reservations - {c.join.invitationId},
       commits := s.commits[c.transactionId := Record(c.join, Pending, 0)])
  }

  function Commit(s: Store, c: JoinCommit, now: u64, fault: CommitFault)
    : (Store, Result<CommitOutcome, TransactionError>)
  {
    var j := c.join;
    if !ValidCommit(s.policy, c) then (s, Err(InvalidInput))
    else if c.transactionId in s.commits then
      (s, if s.commits[c.transactionId].join == j then Ok(AlreadyCommitted) else Err(Conflict))
    else if j.outboxExpiresAt <= now then (s, Err(Expired))
    else if |s.commits| >= s.policy.transactions then (s, Err(CapacityExceeded))
    else if j.invitationId !in s.reservations then (s, Err(ReservationMismatch))
    else
      var reservation := s.reservations[j.invitationId];
      if reservation.generation != j.generation || reservation.requestId != j.requestId then
        (s, Err(ReservationMismatch))
      else if reservation.expiresAt <= now then (s, Err(Expired))
      else if fault == AfterReservationCheck then (s, Err(InjectedFailure))
      else if Replayed(s, j) then (s, Err(Conflict))
      else if fault != NoFault && fault != AfterCommit then (s, Err(InjectedFailure))
      else (Apply(s, c), if fault == AfterCommit then Err(OutcomeUnknown) else Ok(Committed))
  }

  // ---------- leases ----------

  /** No live lease stands in the way: never leased, or the last lease ran out. */
  predicate Available(o: Outbox, now: u64) {
    o.Pending? || (o.Leased? && o.expiresAt <= now)
  }

  function WithOutbox(s: Store, t: Bytes, o: Outbox): Store
    requires t in s.commits
  {
    s.(commits := s.commits[t := s.commits[t].(outbox := o)])
  }

  function Lease(s: Store, t: Bytes, now: u64, seconds: u64): (Store, Result<DeliveryLease, TransactionError>) {
    if AllZero(t) || seconds == 0 || seconds > s.policy.leaseSeconds then (s, Err(InvalidInput))
    else if CheckedAdd(now, seconds).None? then (s, Err(InvalidInput))
    else if t !in s.commits then (s, Err(DeliveryUnavailable))
    else
      var record := s.commits[t];
      var ends := CheckedAdd(now, seconds).value;
      if record.join.outboxExpiresAt <= now || ends > record.join.outboxExpiresAt then (s, Err(Expired))
      else if record.outbox.Exhausted? then (s, Err(AttemptsExhausted))
      else if !Available(record.outbox, now) then (s, Err(DeliveryUnavailable))
      else if record.attempts >= s.policy.deliveryAttempts then
        (WithOutbox(s, t, Exhausted), Err(AttemptsExhausted))
      else if CheckedAdd(s.nextLease, 1).None? then (s, Err(DeliveryUnavailable))
      else
        var leased := Record(record.join, Leased(s.nextLease, ends), record.attempts + 1);
        (s.(nextLease := CheckedAdd(s.nextLease, 1).value, commits := s.commits[t := leased]),
         Ok(DeliveryLease(s.scope, t, s.nextLease)))
  }

  /** The lease was issued by this store for a committed transaction that still carries its number. */
  predicate Holds(s: Store, lease: DeliveryLease) {
    && lease.scope == s.scope && lease.transactionId in s.commits
    && var o := s.commits[lease.transactionId].outbox;
       (o.Leased? || o.Delivered?) && o.sequence == lease.sequence
  }

  /** The lease may still read its payload or turn the record into Delivered. */
  predicate Live(s: Store, lease: DeliveryLease, now: u64) {
    && Holds(s, lease)
    && var record := s.commits[lease.transactionId];
       record.outbox.Leased? && record.outbox.expiresAt > now && record.join.outboxExpiresAt > now
  }

  function Payload(s: Store, lease: DeliveryLease, now: u64): Result<DeliveryPayload, TransactionError> {
    if lease.scope != s.scope || lease.transactionId !in s.commits then Err(LeaseMismatch)
    else
      var join := s.commits[lease.transactionId].join;
      if join.outboxExpiresAt <= now then Err(Expired)
      else if Live(s, lease, now) then Ok(DeliveryPayload(join.welcome, join.endpoint, join.outboxExpiresAt))
      else Err(LeaseMismatch)
  }

  function Fail(s: Store, lease: DeliveryLease): (Store, Result<(), TransactionError>) {
    if !Holds(s, lease) || !s.commits[lease.transactionId].outbox.Leased? then (s, Err(LeaseMismatch))
    else
      var spent := s.commits[lease.transactionId].attempts >= s.policy.deliveryAttempts;
      (WithOutbox(s, lease.transactionId, if spent then Exhausted else Pending), Ok(()))
  }

  function Complete(s: Store, lease: DeliveryLease, now: u64): (Store, Result<(), TransactionError>) {
    if Live(s, lease, now) then (WithOutbox(s, lease.transactionId, Delivered(lease.sequence)), Ok(()))
    else if Holds(s, lease) && s.commits[lease.transactionId].outbox.Delivered? then (s, Ok(()))
    else (s, Err(LeaseMismatch))
  }

  // ---------- the outbox port ----------

  datatype PortError = PortConflict | PortUnavailable | PortInternal

  function PortErrorOf(error: TransactionError): PortError {
    match error
    case DeliveryUnavailable | LeaseMismatch | AttemptsExhausted | Expired => PortConflict
    case CapacityExceeded => PortUnavailable
    case InvalidInput | ReservationMismatch | Conflict | InjectedFailure | OutcomeUnknown => PortInternal
  }

  datatype LeasedWelcome = LeasedWelcome(lease: DeliveryLease, payload: DeliveryPayload)

  predicate Spent(p: Policy, record: Record, now: u64) {
    && record.join.outboxExpiresAt > now && record.attempts >= p.deliveryAttempts
    && Available(record.outbox, now)
  }

  function SweptRecord(p: Policy, record: Record, now: u64): Record {
    if Spent(p, record, now) then record.(outbox := Exhausted) else record
  }

  function Sweep(s: Store, now: u64): Store {
    s.(commits := map t | t in s.commits :: SweptRecord(s.policy, s.commits[t], now))
  }

  /** Transactions listed as pending at `now`. */
  function Waiting(s: Store, now: u64): set<Bytes> {
    set t | t in s.commits
      && s.commits[t].join.outboxExpiresAt > now
      && s.commits[t].attempts < s.policy.deliveryAttempts
      && Available(s.commits[t].outbox, now)
  }

  ghost function First(keys: set<Bytes>): (key: Bytes)
    requires keys != {}
    ensures IsFirst(keys, key)
  {
    FirstExists(keys);
    var key :| IsFirst(keys, key);
    key
  }

  /** Leases `t` and reads its payload; a payload that cannot be read gives the lease back. */
  function HandOut(s: Store, t: Bytes, now: u64, seconds: u64): (Store, Result<Option<LeasedWelcome>, PortError>) {
    var (leased, answer) := Lease(s, t, now, seconds);
    if answer.Err? then (leased, Err(PortErrorOf(answer.error)))
    else
      match Payload(leased, answer.value, now)
      case Ok(payload) => (leased, Ok(Some(LeasedWelcome(answer.value, payload))))
      case Err(error) => (Fail(leased, answer.value).0, Err(PortErrorOf(error)))
  }

  ghost function LeaseNext(s: Store, now: u64, seconds: u64): (Store, Result<Option<LeasedWelcome>, PortError>) {
    if seconds == 0 || seconds > s.policy.leaseSeconds || CheckedAdd(now, seconds).None? then
      (s, Err(PortErrorOf(InvalidInput)))
    else
      var swept := Sweep(s, now);
      if Waiting(swept, now) == {} then (swept, Ok(None))
      else HandOut(swept, First(Waiting(swept, now)), now, seconds)
  }

  // ---------- runs ----------

  datatype Step =
    | Seeding(r: ReservedInvitation, now: u64)
    | Committing(c: JoinCommit, now: u64, fault: CommitFault)
    | Leasing(t: Bytes, now: u64, seconds: u64)
    | LeasingNext(now: u64, seconds: u64)
    | Failing(lease: DeliveryLease)
    | Completing(lease: DeliveryLease, now: u64)

  ghost function Next(s: Store, step: Step): Store {
    match step
    case Seeding(r, now) => Seed(s, r, now).0
    case Committing(c, now, fault) => Commit(s, c, now, fault).0
    case Leasing(t, now, seconds) => Lease(s, t, now, seconds).0
    case LeasingNext(now, seconds) => LeaseNext(s, now, seconds).0
    case Failing(lease) => Fail(s, lease).0
    case Completing(lease, now) => Complete(s, lease, now).0
  }

  ghost function Run(s: Store, steps: seq<Step>): Store
    decreases |steps|
  {
    if steps == [] then s else Run(Next(s, steps[0]), steps[1..])
  }

  /** The lease a step hands out, if any. */
  ghost function Issued(s: Store, step: Step): seq<DeliveryLease> {
    match step
    case Leasing(t, now, seconds) =>
      var answer := Lease(s, t, now, seconds).1;
      if answer.Ok? then [answer.value] else []
    case LeasingNext(now, seconds) =>
      var answer := LeaseNext(s, now, seconds).1;
      if answer.Ok? && answer.value.Some? then [answer.value.value.lease] else []
    case _ => []
  }

  ghost function IssuedBy(s: Store, steps: seq<Step>): seq<DeliveryLease>
    decreases |steps|
  {
    if steps == [] then [] else Issued(s, steps[0]) + IssuedBy(Next(s, steps[0]), steps[1..])
  }

  /** The reservation a step retires, if any, read off as the live pair that vanished without a commit. */
  ghost function Retirements(s: Store, step: Step): seq<(Bytes, Bytes)> {
    match step
    case Seeding(r, now) =>
      if Seed(s, r, now).1.Err? then []
      else if r.invitationId in s.reservations then
        [(r.invitationId, s.reservations[r.invitationId].generation)]
      else if |s.reservations| < s.policy.transactions then []
      else
        var id := Oldest(s.reservations, now);
        [(id, s.reservations[id].generation)]
    case _ => []
  }

  ghost function RetiredBy(s: Store, steps: seq<Step>): seq<(Bytes, Bytes)>
    decreases |steps|
  {
    if steps == [] then [] else Retirements(s, steps[0]) + RetiredBy(Next(s, steps[0]), steps[1..])
  }

  // ---------- the invariant ----------

  /** What a committed record keeps, whatever the clock did. */
  predicate RecordOk(p: Policy, nextLease: u64, t: Bytes, record: Record) {
    && !AllZero(t)
    && record.attempts <= p.deliveryAttempts
    && (record.outbox.Pending? ==> record.attempts < p.deliveryAttempts)
    && (record.outbox.Exhausted? ==> record.attempts == p.deliveryAttempts)
    && (record.outbox.Leased? || record.outbox.Delivered? ==>
          0 < record.outbox.sequence < nextLease && 0 < record.attempts)
    && (record.outbox.Leased? ==> record.outbox.expiresAt <= record.join.outboxExpiresAt)
  }

  predicate RecordsOk(s: Store) {
    forall t :: t in s.commits ==> RecordOk(s.policy, s.nextLease, t, s.commits[t])
  }

  function Joins(s: Store): map<Bytes, Join> {
    map t | t in s.commits :: s.commits[t].join
  }

  predicate Apart(joins: map<Bytes, Join>, t: Bytes, u: Bytes) {
    t in joins && u in joins && t != u ==>
      joins[t].invitationId != joins[u].invitationId && joins[t].requestId != joins[u].requestId
  }

  /** A reserved invitation is not committed, and no invitation or request is committed twice. */
  ghost predicate IdentitiesOk(joins: map<Bytes, Join>, reserved: set<Bytes>) {
    && (forall t :: t in joins ==> joins[t].invitationId !in reserved)
    && (forall t, u :: Apart(joins, t, u))
  }

  /** The retired window is bounded, duplicate-free and disjoint from the live pairs. */
  predicate RetiredOk(s: Store) {
    && |s.retired| <= HARD_MAXIMUM_RETIRED_RESERVATIONS
    && (forall i, k :: 0 <= i < k < |s.retired| ==> s.retired[i] != s.retired[k])
    && (forall id :: id in s.reservations ==> (id, s.reservations[id].generation) !in s.retired)
  }

  ghost predicate Inv(s: Store) {
    && s.policy.Valid() && 0 < s.nextLease
    && |s.reservations| <= s.policy.transactions && |s.commits| <= s.policy.transactions
    && RecordsOk(s) && IdentitiesOk(Joins(s), s.reservations.Keys) && RetiredOk(s)
  }
}
