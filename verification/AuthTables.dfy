/**
 The durable authorization tables: invitation opening contexts, authorization attempts, and the join
 and reservation rows a membership commit writes. Identifiers are blobs of fixed size; they are
 represented by their big-endian value, so zero is the all-zero blob and row order is numeric order.
 */
module AuthTables {
  import opened Common

  const I64_MAX: int := 0x7fff_ffff_ffff_ffff

  datatype OpeningState = Available | Reserved | Consumed | Unusable

  /** `erased` says that the private key column holds zeros. */
  datatype Opening = Opening(generation: nat, expiresAt: u64, state: OpeningState, erased: bool)

  datatype AttemptState = PendingApproval | Approved | OutcomeUnknown | Committed | Declined | Abandoned

  predicate Live(state: AttemptState) {
    state.PendingApproval? || state.Approved? || state.OutcomeUnknown?
  }

  /** The verified request an attempt binds; `leaf` stands for key package, credential and leaf key. */
  datatype Request = Request(
    invitationId: nat, generation: nat, requestId: nat, nonce: nat, fingerprint: nat, leaf: nat,
    issuedAt: u64, expiresAt: u64, invitationExpiresAt: u64)
  {
    predicate Valid() {
      && invitationId != 0 && generation != 0 && requestId != 0 && nonce != 0 && fingerprint != 0 && leaf != 0
      && 0 < issuedAt < expiresAt <= invitationExpiresAt <= I64_MAX
    }
  }

  datatype Attempt = Attempt(request: Request, state: AttemptState, transaction: Option<nat>)

  /** `content` stands for the remaining columns and the group state written with them. */
  datatype JoinRow = JoinRow(invitationId: nat, generation: nat, requestId: nat, fingerprint: nat, content: nat)

  datatype ReservationRow = ReservationRow(generation: nat, requestId: nat, expiresAt: u64, consumed: bool)

  datatype Tables = Tables(
    openings: map<nat, Opening>, attempts: map<nat, Attempt>,
    joins: map<nat, JoinRow>, reservations: map<nat, ReservationRow>)

  /** What restoring an invitation from its row gives: nothing, or an invitation that agrees or not. */
  datatype Restoration = Broken | Restored(agrees: bool)

  type Protector = nat -> Restoration

  // ---------- single statements ----------

  function Erase(o: Opening, state: OpeningState): Opening {
    o.(state := state, erased := true)
  }

  predicate TerminalBy(a: Attempt, now: u64) {
    a.request.invitationExpiresAt <= now && !Live(a.state)
  }

  predicate OwnsTerminal(t: Tables, id: nat, now: u64, key: nat)
    requires id in t.openings
  {
    && key in t.attempts && t.attempts[key].request.invitationId == id
    && t.attempts[key].request.generation == t.openings[id].generation
    && TerminalBy(t.attempts[key], now)
  }

  predicate StuckReserved(t: Tables, id: nat, now: u64)
    requires id in t.openings
  {
    && t.openings[id].state.Reserved? && t.openings[id].expiresAt <= now
    && exists key :: key in t.attempts && OwnsTerminal(t, id, now, key)
  }

  /** First statement of compaction. */
  function RetireReserved(t: Tables, now: u64): Tables {
    t.(openings := map id | id in t.openings ::
         if StuckReserved(t, id, now) then Erase(t.openings[id], Unusable) else t.openings[id])
  }

  /** Second statement: expired terminal attempts go. */
  function DropTerminal(t: Tables, now: u64): Tables {
    t.(attempts := map key | key in t.attempts && !TerminalBy(t.attempts[key], now) :: t.attempts[key])
  }

  /** Third statement. */
  function RetireAvailable(t: Tables, now: u64): Tables {
    t.(openings := map id | id in t.openings ::
         if t.openings[id].state.Available? && t.openings[id].expiresAt <= now then Erase(t.openings[id], Unusable)
         else t.openings[id])
  }

  predicate Doomed(o: Opening, now: u64) {
    (o.state.Unusable? || o.state.Consumed?) && o.expiresAt <= now
  }

  /** Fourth statement. The attempt rows reference the opening rows, so a referenced row cannot be deleted. */
  function DropOpenings(t: Tables, now: u64): Option<Tables> {
    if exists key :: key in t.attempts
         && t.attempts[key].request.invitationId in t.openings
         && Doomed(t.openings[t.attempts[key].request.invitationId], now)
    then None
    else Some(t.(openings := map id | id in t.openings && !Doomed(t.openings[id], now) :: t.openings[id]))
  }

  /** Compaction; None when a statement fails and the whole transaction is rolled back. */
  function Compact(t: Tables, now: u64): Option<Tables> {
    DropOpenings(RetireAvailable(DropTerminal(RetireReserved(t, now), now), now), now)
  }

  function SetAttempt(t: Tables, key: nat, state: AttemptState): Tables
    requires key in t.attempts
  {
    t.(attempts := t.attempts[key := t.attempts[key].(state := state)])
  }

  function SetOpening(t: Tables, id: nat, o: Opening): Tables {
    t.(openings := t.openings[id := o])
  }

  predicate HasOpening(t: Tables, id: nat, generation: nat) {
    id in t.openings && t.openings[id].generation == generation
  }

  /** A Reserved opening becomes Available again, or Unusable when it expired or cannot be restored. */
  function Released(o: Opening, now: u64, protector: Protector): Opening {
    if o.expiresAt > now && protector(o.generation) == Restored(true) then o.(state := Available)
    else Erase(o, Unusable)
  }

  function Release(t: Tables, id: nat, generation: nat, now: u64, protector: Protector): Option<Tables> {
    if !HasOpening(t, id, generation) || !t.openings[id].state.Reserved? then None
    else Some(SetOpening(t, id, Released(t.openings[id], now, protector)))
  }

  /** The unique indexes an attempt row must fit. */
  predicate ClashesWith(a: Attempt, r: Request) {
    a.request.generation == r.generation
    && (a.request.requestId == r.requestId || a.request.nonce == r.nonce || a.request.fingerprint == r.fingerprint)
  }

  predicate Clashes(t: Tables, r: Request) {
    exists key :: key in t.attempts && ClashesWith(t.attempts[key], r)
  }

  predicate TransactionTaken(t: Tables, transaction: nat) {
    exists key :: key in t.attempts && t.attempts[key].transaction == Some(transaction)
  }

  predicate JoinClashes(t: Tables, transaction: nat, row: JoinRow) {
    transaction in t.joins
    || exists u :: u in t.joins
         && (t.joins[u].invitationId == row.invitationId || t.joins[u].requestId == row.requestId)
  }

  predicate Agrees(row: JoinRow, r: Request) {
    && row.invitationId == r.invitationId && row.generation == r.generation
    && row.requestId == r.requestId && row.fingerprint == r.fingerprint
  }

  function LiveKeys(t: Tables): set<nat> {
    set key | key in t.attempts && Live(t.attempts[key].state)
  }

  function KeysOf(t: Tables, id: nat, generation: nat): set<nat> {
    set key | key in t.attempts
      && t.attempts[key].request.invitationId == id && t.attempts[key].request.generation == generation
  }
}
