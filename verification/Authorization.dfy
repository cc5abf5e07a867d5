/** The authorization lifecycle: every operation is one transaction over the tables, or leaves them alone. */
module Authorization {
  import opened Common
  import opened AuthTables

  datatype StoreError = Rejected | CapacityExceeded | Replay | Conflict | InjectedFailure | CommitUnknown

  datatype Policy = Policy(liveInvitations: nat, retainedAttempts: nat) {
    predicate Valid() {
      1 <= liveInvitations <= 8 && 1 <= retainedAttempts <= 8
    }
  }

  /** `scope` is the identity of this open store; `livePre` and `liveMembership` are the handles it still owes. */
  datatype Storage = Storage(
    policy: Policy, scope: nat, tables: Tables, livePre: seq<nat>, liveMembership: seq<nat>)

  datatype Handle = Handle(scope: nat, attempt: nat, invitationId: nat, generation: nat)

  datatype Membership = Membership(scope: nat, attempt: nat, transaction: nat)

  datatype PersistenceFault = NoFault | BeforeCommit | AfterCommit

  function Without(s: seq<nat>, x: nat): (r: seq<nat>)
    ensures |r| <= |s| && forall y :: y in r <==> y in s && y != x
  {
    if s == [] then [] else (if s[0] == x then [] else [s[0]]) + Without(s[1..], x)
  }

  function Open(policy: Policy, scope: nat): Storage {
    Storage(policy, scope, Tables(map[], map[], map[], map[]), [], [])
  }

  function Issue(s: Storage, id: nat, generation: nat, issuedAt: u64, expiresAt: u64, now: u64)
    : (Storage, Result<(), StoreError>)
  {
    if issuedAt == 0 || issuedAt > now || expiresAt <= now || expiresAt > I64_MAX || now > I64_MAX then
      (s, Err(Rejected))
    else
      match Compact(s.tables, now)
      case None => (s, Err(Rejected))
      case Some(t) =>
        if |t.openings| >= s.policy.liveInvitations then (s, Err(CapacityExceeded))
        else if id in t.openings || exists k :: k in t.openings && t.openings[k].generation == generation then
          (s, Err(Rejected))
        else (s.(tables := SetOpening(t, id, Opening(generation, expiresAt, Available, false))), Ok(()))
  }

  /** Reading an invitation back; an opening that is expired or cannot be restored becomes Unusable. */
  function Load(s: Storage, id: nat, now: u64, protector: Protector): (Storage, Result<Option<()>, StoreError>) {
    if id == 0 || now > I64_MAX then (s, Err(Rejected))
    else if id !in s.tables.openings then (s, Ok(None))
    else
      var o := s.tables.openings[id];
      if !o.state.Available? then (s, Err(Rejected))
      else if o.expiresAt <= now || protector(o.generation) != Restored(true) then
        (s.(tables := SetOpening(s.tables, id, Erase(o, Unusable))), Err(Rejected))
      else (s, Ok(Some(())))
  }

  function Reserve(s: Storage, r: Request, now: u64, protector: Protector, drawn: Option<nat>)
    : (Storage, Result<Handle, StoreError>)
  {
    if !r.Valid() || now > I64_MAX || r.issuedAt > now || r.expiresAt <= now || r.invitationExpiresAt <= now then
      (s, Err(Rejected))
    else if |s.livePre| >= s.policy.retainedAttempts then (s, Err(CapacityExceeded))
    else
      match Compact(s.tables, now)
      case None => (s, Err(Rejected))
      case Some(t) =>
        if exists key :: key in t.attempts
             && t.attempts[key].request.invitationExpiresAt > now && ClashesWith(t.attempts[key], r)
        then (s, Err(Replay))
        else if |LiveKeys(t)| >= s.policy.retainedAttempts
                || |KeysOf(t, r.invitationId, r.generation)| >= s.policy.retainedAttempts
        then (s, Err(CapacityExceeded))
        else if !HasOpening(t, r.invitationId, r.generation) then (s, Err(Conflict))
        else
          var o := t.openings[r.invitationId];
          if o.expiresAt <= now || o.expiresAt != r.invitationExpiresAt || !o.state.Available? then (s, Err(Conflict))
          else if protector(o.generation).Broken? then
            (s.(tables := SetOpening(t, r.invitationId, Erase(o, Unusable))), Err(Rejected))
          else if !protector(o.generation).agrees then (s, Err(Conflict))
          else if drawn.None? || drawn.value == 0 || drawn.value in t.attempts || Clashes(t, r) then
            (s, Err(Rejected))
          else
            var inserted := t.(attempts := t.attempts[drawn.value := Attempt(r, PendingApproval, None)]);
            (s.(tables := SetOpening(inserted, r.invitationId, o.(state := Reserved)),
                livePre := s.livePre + [drawn.value]),
             Ok(Handle(s.scope, drawn.value, r.invitationId, r.generation)))
  }

  /** The attempt and its Reserved opening are exactly those of the handle. */
  predicate HandleFits(t: Tables, h: Handle, expected: AttemptState) {
    && h.attempt in t.attempts
    && t.attempts[h.attempt].request.invitationId == h.invitationId
    && t.attempts[h.attempt].request.generation == h.generation
    && t.attempts[h.attempt].state == expected
    && HasOpening(t, h.invitationId, h.generation) && t.openings[h.invitationId].state.Reserved?
  }

  predicate RequestExpired(r: Request, now: u64) {
    r.expiresAt <= now || r.invitationExpiresAt <= now
  }

  /** Ends an attempt before membership and releases its opening, in one transaction. */
  function End(s: Storage, h: Handle, expected: AttemptState, final: AttemptState, now: u64, protector: Protector)
    : (Storage, Result<(), StoreError>)
  {
    if now > I64_MAX || h.scope != s.scope || !HandleFits(s.tables, h, expected) then (s, Err(Conflict))
    else
      match Release(SetAttempt(s.tables, h.attempt, final), h.invitationId, h.generation, now, protector)
      case None => (s, Err(Conflict))
      case Some(t) => (s.(tables := t, livePre := Without(s.livePre, h.attempt)), Ok(()))
  }

  function Approve(s: Storage, h: Handle, now: u64, protector: Protector): (Storage, Result<Handle, StoreError>) {
    if now > I64_MAX || h.scope != s.scope || !HandleFits(s.tables, h, PendingApproval) then (s, Err(Conflict))
    else if RequestExpired(s.tables.attempts[h.attempt].request, now) then
      var (after, answer) := End(s, h, PendingApproval, Abandoned, now, protector);
      (after, Err(if answer.Ok? then Rejected else answer.error))
    else (s.(tables := SetAttempt(s.tables, h.attempt, Approved)), Ok(h))
  }

  function BeginMembership(s: Storage, h: Handle, transaction: nat, now: u64, protector: Protector)
    : (Storage, Result<Membership, StoreError>)
  {
    if transaction == 0 || now > I64_MAX || h.scope != s.scope then (s, Err(Conflict))
    else if |s.liveMembership| >= s.policy.retainedAttempts then (s, Err(CapacityExceeded))
    else if !HandleFits(s.tables, h, Approved) then (s, Err(Conflict))
    else if RequestExpired(s.tables.attempts[h.attempt].request, now) then
      var (after, answer) := End(s, h, Approved, Abandoned, now, protector);
      (after, Err(if answer.Ok? then Rejected else answer.error))
    else if TransactionTaken(s.tables, transaction) then (s, Err(Rejected))
    else
      var bound := s.tables.attempts[h.attempt].(state := OutcomeUnknown, transaction := Some(transaction));
      (s.(tables := s.tables.(attempts := s.tables.attempts[h.attempt := bound]),
          livePre := Without(s.livePre, h.attempt), liveMembership := s.liveMembership + [h.attempt]),
       Ok(Membership(s.scope, h.attempt, transaction)))
  }

  /** Attempts an earlier open left before membership. */
  function Stale(t: Tables): set<nat> {
    set key | key in t.attempts && (t.attempts[key].state.PendingApproval? || t.attempts[key].state.Approved?)
  }

  predicate OwnedBy(t: Tables, id: nat, key: nat) {
    key in t.attempts && t.attempts[key].request.invitationId == id
  }

  /** The given attempts abandoned and their openings released, at once. */
  function AbandonAll(t: Tables, keys: set<nat>, now: u64, protector: Protector): Tables {
    t.(attempts := map key | key in t.attempts ::
         if key in keys then t.attempts[key].(state := Abandoned) else t.attempts[key],
       openings := map id | id in t.openings ::
         if exists key :: key in keys && OwnedBy(t, id, key) then Released(t.openings[id], now, protector)
         else t.openings[id])
  }

  /** The two statements that recovery runs for one attempt; None when the opening is not Reserved for it. */
  function AbandonOne(t: Tables, key: nat, now: u64, protector: Protector): (r: Option<Tables>)
    requires key in t.attempts
    ensures r.Some? ==> r.value.attempts.Keys == t.attempts.Keys
  {
    var request := t.attempts[key].request;
    Release(SetAttempt(t, key, Abandoned), request.invitationId, request.generation, now, protector)
  }

  /** Restart recovery as a whole; `AuthStore.dfy` proves the row-by-row loop equal to it. */
  function RecoverPre(s: Storage, now: u64, protector: Protector): (Storage, Result<nat, StoreError>) {
    if now > I64_MAX then (s, Err(Rejected))
    else if exists key :: key in Stale(s.tables) && key in s.livePre then (s, Err(Conflict))
    else (s.(tables := AbandonAll(s.tables, Stale(s.tables), now, protector)), Ok(|Stale(s.tables)|))
  }

  function RecoverOutcome(s: Storage, attempt: nat, transaction: nat, now: u64, protector: Protector)
    : (Storage, Result<AttemptState, StoreError>)
  {
    var t := s.tables;
    if attempt == 0 || transaction == 0 || now > I64_MAX then (s, Err(Rejected))
    else if attempt in s.liveMembership then (s, Err(Conflict))
    else if attempt !in t.attempts || t.attempts[attempt].transaction != Some(transaction) then (s, Err(Conflict))
    else
      var a := t.attempts[attempt];
      var id := a.request.invitationId;
      if transaction in t.joins && !Agrees(t.joins[transaction], a.request) then (s, Err(Conflict))
      else
        match a.state
        case Committed =>
          if transaction in t.joins && HasOpening(t, id, a.request.generation) && t.openings[id].state.Consumed? then
            (s, Ok(Committed))
          else (s, Err(Conflict))
        case Abandoned => (s, if transaction in t.joins then Err(Conflict) else Ok(Abandoned))
        case OutcomeUnknown =>
          if !HasOpening(t, id, a.request.generation) || !t.openings[id].state.Reserved? then (s, Err(Conflict))
          else if transaction in t.joins then
            (s.(tables := SetAttempt(SetOpening(t, id, Erase(t.openings[id], Consumed)), attempt, Committed)),
             Ok(Committed))
          else
            (s.(tables := SetAttempt(SetOpening(t, id, Released(t.openings[id], now, protector)), attempt, Abandoned)),
             Ok(Abandoned))
        case _ => (s, Err(Conflict))
  }

  /** The attempt, its transaction and its Reserved opening authorize exactly this join, unexpired. */
  predicate Authorizes(t: Tables, m: Membership, row: JoinRow, leaf: nat, now: u64) {
    && m.attempt in t.attempts
    && var a := t.attempts[m.attempt];
       && a.transaction == Some(m.transaction) && a.state.OutcomeUnknown?
       && Agrees(row, a.request) && a.request.leaf == leaf
       && !RequestExpired(a.request, now)
       && HasOpening(t, row.invitationId, row.generation) && t.openings[row.invitationId].state.Reserved?
  }

  /** The tables after an authorized membership commit. */
  function AuthorizedTables(t: Tables, m: Membership, row: JoinRow): Tables
    requires m.attempt in t.attempts && row.invitationId in t.openings
  {
    var a := t.attempts[m.attempt];
    var reservation := ReservationRow(row.generation, row.requestId, a.request.invitationExpiresAt, true);
    Tables(t.openings[row.invitationId := Erase(t.openings[row.invitationId], Consumed)],
           t.attempts[m.attempt := a.(state := Committed)],
           t.joins[m.transaction := row],
           t.reservations[row.invitationId := reservation])
  }

  /** A membership commit under its authorization; whatever it answers, the handle is spent. */
  function CommitAuthorized(s: Storage, m: Membership, row: JoinRow, leaf: nat, now: u64, fault: PersistenceFault)
    : (Storage, Result<(), StoreError>)
  {
    var t := s.tables;
    if m.scope != s.scope then (s, Err(Conflict))
    else
      var spent := s.(liveMembership := Without(s.liveMembership, m.attempt));
      if now > I64_MAX then (spent, Err(Rejected))
      else if !Authorizes(t, m, row, leaf, now) then (spent, Err(Conflict))
      else if m.transaction in t.joins then
        (spent, if t.joins[m.transaction] == row then Ok(()) else Err(Conflict))
      else if row.invitationId in t.reservations || JoinClashes(t, m.transaction, row) then (spent, Err(Rejected))
      else if fault.BeforeCommit? then (spent, Err(InjectedFailure))
      else
        (spent.(tables := AuthorizedTables(t, m, row)), if fault.AfterCommit? then Err(CommitUnknown) else Ok(()))
  }

  function SeedReservation(s: Storage, id: nat, generation: nat, requestId: nat, expiresAt: u64, now: u64)
    : (Storage, Result<(), StoreError>)
  {
    var t := s.tables;
    if id == 0 || generation == 0 || requestId == 0 || expiresAt <= now || expiresAt > I64_MAX then (s, Err(Rejected))
    else if HasOpening(t, id, generation) then (s, Err(Conflict))
    else if id in t.reservations then (s, Err(Rejected))
    else
      var row := ReservationRow(generation, requestId, expiresAt, false);
      (s.(tables := t.(reservations := t.reservations[id := row])), Ok(()))
  }

  /** A membership commit without durable authorization: only against a seeded reservation. */
  function CommitSeeded(s: Storage, transaction: nat, row: JoinRow, now: u64, fault: PersistenceFault)
    : (Storage, Result<(), StoreError>)
  {
    var t := s.tables;
    if transaction == 0 || now > I64_MAX then (s, Err(Rejected))
    else if HasOpening(t, row.invitationId, row.generation) then (s, Err(Conflict))
    else if transaction in t.joins then (s, if t.joins[transaction] == row then Ok(()) else Err(Conflict))
    else if row.invitationId !in t.reservations then (s, Err(Rejected))
    else
      var r := t.reservations[row.invitationId];
      if r.generation != row.generation || r.requestId != row.requestId || r.expiresAt <= now || r.consumed
         || JoinClashes(t, transaction, row)
      then (s, Err(Rejected))
      else if fault.BeforeCommit? then (s, Err(InjectedFailure))
      else
        (s.(tables := t.(joins := t.joins[transaction := row],
                         reservations := t.reservations[row.invitationId := r.(consumed := true)])),
         if fault.AfterCommit? then Err(CommitUnknown) else Ok(()))
  }

  // ---------- runs ----------

  datatype Step =
    | Issuing(id: nat, generation: nat, issuedAt: u64, expiresAt: u64, now: u64)
    | Loading(id: nat, now: u64, protector: Protector)
    | Reserving(r: Request, now: u64, protector: Protector, drawn: Option<nat>)
    | Approving(h: Handle, now: u64, protector: Protector)
    | Beginning(h: Handle, transaction: nat, now: u64, protector: Protector)
    | AbandoningPending(h: Handle, now: u64, protector: Protector)
    | Declining(h: Handle, now: u64, protector: Protector)
    | AbandoningApproved(h: Handle, now: u64, protector: Protector)
    | RecoveringPre(now: u64, protector: Protector)
    | RecoveringOutcome(attempt: nat, transaction: nat, now: u64, protector: Protector)
    | CommittingAuthorized(m: Membership, row: JoinRow, leaf: nat, now: u64, fault: PersistenceFault)
    | DroppingMembership(m: Membership)
    | Seeding(id: nat, generation: nat, requestId: nat, expiresAt: u64, now: u64)
    | CommittingSeeded(transaction: nat, row: JoinRow, now: u64, fault: PersistenceFault)
    | Reopening(scope: nat)

  function Next(s: Storage, step: Step): Storage {
    match step
    case Issuing(id, generation, issuedAt, expiresAt, now) => Issue(s, id, generation, issuedAt, expiresAt, now).0
    case Loading(id, now, protector) => Load(s, id, now, protector).0
    case Reserving(r, now, protector, drawn) => Reserve(s, r, now, protector, drawn).0
    case Approving(h, now, protector) => Approve(s, h, now, protector).0
    case Beginning(h, transaction, now, protector) => BeginMembership(s, h, transaction, now, protector).0
    case AbandoningPending(h, now, protector) => End(s, h, PendingApproval, Abandoned, now, protector).0
    case Declining(h, now, protector) => End(s, h, PendingApproval, Declined, now, protector).0
    case AbandoningApproved(h, now, protector) => End(s, h, Approved, Abandoned, now, protector).0
    case RecoveringPre(now, protector) => RecoverPre(s, now, protector).0
    case RecoveringOutcome(attempt, transaction, now, protector) =>
      RecoverOutcome(s, attempt, transaction, now, protector).0
    case CommittingAuthorized(m, row, leaf, now, fault) => CommitAuthorized(s, m, row, leaf, now, fault).0
    case DroppingMembership(m) =>
      if m.scope == s.scope then s.(liveMembership := Without(s.liveMembership, m.attempt)) else s
    case Seeding(id, generation, requestId, expiresAt, now) =>
      SeedReservation(s, id, generation, requestId, expiresAt, now).0
    case CommittingSeeded(transaction, row, now, fault) => CommitSeeded(s, transaction, row, now, fault).0
    case Reopening(scope) => s.(scope := scope, livePre := [], liveMembership := [])
  }

  function Run(s: Storage, steps: seq<Step>): Storage
    decreases |steps|
  {
    if steps == [] then s else Run(Next(s, steps[0]), steps[1..])
  }

  /** What a generator guarantees of an issued invitation: nonzero ids and a generation no join ever used. */
  predicate Fresh(s: Storage, step: Step) {
    step.Issuing? ==>
      && step.id != 0 && step.generation != 0
      && forall u :: u in s.tables.joins ==> s.tables.joins[u].generation != step.generation
  }

  function Generations(step: Step): set<nat> {
    if step.Issuing? then {step.generation} else {}
  }

  /** Along the run no generation is issued that was in `used` or issued earlier in the run. */
  predicate AllFresh(s: Storage, steps: seq<Step>, used: set<nat>)
    decreases |steps|
  {
    steps == []
    || (Fresh(s, steps[0]) && Generations(steps[0]) !! used
        && AllFresh(Next(s, steps[0]), steps[1..], used + Generations(steps[0])))
  }
}
