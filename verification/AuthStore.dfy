/** The mutating authorization store: statements run on a working copy that replaces the tables at commit. */
module AuthStore {
  import opened Common
  import opened AuthTables
  import opened Authorization
  import AuthInvariant
  import AuthLaws
  import AuthSteps

  class SqlCipherStorage {
    const policy: Policy
    const scope: nat
    var tables: Tables
    var livePre: seq<nat>
    var liveMembership: seq<nat>

    ghost function State(): Storage
      reads this
    {
      Storage(policy, scope, tables, livePre, liveMembership)
    }

    /** Opening a store keeps its tables and owes no handles. */
    constructor (policy: Policy, scope: nat, stored: Tables)
      ensures State() == Storage(policy, scope, stored, [], [])
    {
      this.policy := policy;
      this.scope := scope;
      tables := stored;
      livePre := [];
      liveMembership := [];
    }

    /** Runs the four statements of compaction on a working copy. */
    method CompactExpired(now: u64) returns (work: Option<Tables>)
      ensures work == Compact(tables, now)
    {
      var t := tables;
      var openings := map id | id in t.openings ::
        if StuckReserved(t, id, now) then Erase(t.openings[id], Unusable) else t.openings[id];
      t := t.(openings := openings);
      t := t.(attempts := map key | key in t.attempts && !TerminalBy(t.attempts[key], now) :: t.attempts[key]);
      openings := map id | id in t.openings ::
        if t.openings[id].state.Available? && t.openings[id].expiresAt <= now then Erase(t.openings[id], Unusable)
        else t.openings[id];
      t := t.(openings := openings);
      work := DropOpenings(t, now);
    }

    method RetainPre(attempt: nat)
      modifies this`livePre
      ensures livePre == Without(old(livePre), attempt)
    {
      var kept: seq<nat> := [];
      var i := |livePre|;
      while i > 0
        invariant 0 <= i <= |livePre| && kept == Without(livePre[i..], attempt)
      {
        i := i - 1;
        assert livePre[i..][1..] == livePre[i + 1..];
        if livePre[i] != attempt {
          kept := [livePre[i]] + kept;
        } else {
          kept := [] + kept;
        }
      }
      assert livePre[0..] == livePre;
      livePre := kept;
    }

    method IssueInvitation(id: nat, generation: nat, issuedAt: u64, expiresAt: u64, now: u64)
      returns (answer: Result<(), StoreError>)
      modifies this
      ensures (State(), answer) == Issue(old(State()), id, generation, issuedAt, expiresAt, now)
    {
      hide Compact;
      if issuedAt == 0 || issuedAt > now || expiresAt <= now || expiresAt > I64_MAX || now > I64_MAX {
        return Err(Rejected);
      }
      var work := CompactExpired(now);
      if work.None? {
        return Err(Rejected);
      }
      var t := work.value;
      if |t.openings| >= policy.liveInvitations {
        return Err(CapacityExceeded);
      }
      if id in t.openings || exists k :: k in t.openings && t.openings[k].generation == generation {
        return Err(Rejected);
      }
      tables := t.(openings := t.openings[id := Opening(generation, expiresAt, Available, false)]);
      return Ok(());
    }

    method ReserveAuthorization(r: Request, now: u64, protector: Protector, drawn: Option<nat>)
      returns (answer: Result<Handle, StoreError>)
      modifies this
      ensures (State(), answer) == Reserve(old(State()), r, now, protector, drawn)
    {
      hide Compact;
      if !r.Valid() || now > I64_MAX || r.issuedAt > now || r.expiresAt <= now || r.invitationExpiresAt <= now {
        return Err(Rejected);
      }
      if |livePre| >= policy.retainedAttempts {
        return Err(CapacityExceeded);
      }
      var work := CompactExpired(now);
      if work.None? {
        return Err(Rejected);
      }
      var t := work.value;
      if (exists key :: key in t.attempts
            && t.attempts[key].request.invitationExpiresAt > now && ClashesWith(t.attempts[key], r))
      {
        return Err(Replay);
      }
      if |LiveKeys(t)| >= policy.retainedAttempts
         || |KeysOf(t, r.invitationId, r.generation)| >= policy.retainedAttempts
      {
        return Err(CapacityExceeded);
      }
      if !HasOpening(t, r.invitationId, r.generation) {
        return Err(Conflict);
      }
      var o := t.openings[r.invitationId];
      if o.expiresAt <= now || o.expiresAt != r.invitationExpiresAt || !o.state.Available? {
        return Err(Conflict);
      }
      var restored := protector(o.generation);
      if restored.Broken? {
        tables := SetOpening(t, r.invitationId, Erase(o, Unusable));
        return Err(Rejected);
      }
      if !restored.agrees {
        return Err(Conflict);
      }
      if drawn.None? || drawn.value == 0 || drawn.value in t.attempts || Clashes(t, r) {
        return Err(Rejected);
      }
      t := t.(attempts := t.attempts[drawn.value := Attempt(r, PendingApproval, None)]);
      t := t.(openings := t.openings[r.invitationId := o.(state := Reserved)]);
      tables := t;
      livePre := livePre + [drawn.value];
      return Ok(Handle(scope, drawn.value, r.invitationId, r.generation));
    }

    /** Ends an attempt before membership and releases its opening. */
    method EndAuthorization(h: Handle, expected: AttemptState, final: AttemptState, now: u64, protector: Protector)
      returns (answer: Result<(), StoreError>)
      modifies this
      ensures (State(), answer) == End(old(State()), h, expected, final, now, protector)
    {
      if now > I64_MAX || h.scope != scope || !HandleFits(tables, h, expected) {
        return Err(Conflict);
      }
      var work := SetAttempt(tables, h.attempt, final);
      var released := Release(work, h.invitationId, h.generation, now, protector);
      assert released.Some?;
      tables := released.value;
      RetainPre(h.attempt);
      return Ok(());
    }

    method ApproveAuthorization(h: Handle, now: u64, protector: Protector) returns (answer: Result<Handle, StoreError>)
      modifies this
      ensures (State(), answer) == Approve(old(State()), h, now, protector)
    {
      if now > I64_MAX || h.scope != scope || !HandleFits(tables, h, PendingApproval) {
        return Err(Conflict);
      }
      if RequestExpired(tables.attempts[h.attempt].request, now) {
        var ended := EndAuthorization(h, PendingApproval, Abandoned, now, protector);
        return Err(if ended.Ok? then Rejected else ended.error);
      }
      tables := SetAttempt(tables, h.attempt, Approved);
      return Ok(h);
    }

    method BeginMembershipAuthorization(h: Handle, transaction: nat, now: u64, protector: Protector)
      returns (answer: Result<Membership, StoreError>)
      modifies this
      ensures (State(), answer) == BeginMembership(old(State()), h, transaction, now, protector)
    {
      if transaction == 0 || now > I64_MAX || h.scope != scope {
        return Err(Conflict);
      }
      if |liveMembership| >= policy.retainedAttempts {
        return Err(CapacityExceeded);
      }
      if !HandleFits(tables, h, Approved) {
        return Err(Conflict);
      }
      var a := tables.attempts[h.attempt];
      if RequestExpired(a.request, now) {
        var ended := EndAuthorization(h, Approved, Abandoned, now, protector);
        return Err(if ended.Ok? then Rejected else ended.error);
      }
      if TransactionTaken(tables, transaction) {
        return Err(Rejected);
      }
      a := a.(state := OutcomeUnknown, transaction := Some(transaction));
      tables := tables.(attempts := tables.attempts[h.attempt := a]);
      liveMembership := liveMembership + [h.attempt];
      RetainPre(h.attempt);
      return Ok(Membership(scope, h.attempt, transaction));
    }

    /**
     Restart recovery, one attempt and one release at a time: it changes everything or nothing, and in coupled
     tables it equals abandoning all stale attempts at once.
     */
    method RecoverPreMembership(now: u64, protector: Protector) returns (answer: Result<nat, StoreError>)
      modifies this`tables
      ensures answer.Err? ==> tables == old(tables)
      ensures AuthInvariant.Coupled(old(tables)) ==> (State(), answer) == RecoverPre(old(State()), now, protector)
    {
      hide AuthInvariant.Coupled, AbandonAll, AbandonOne;
      if now > I64_MAX {
        return Err(Rejected);
      }
      var listed := Stale(tables);
      if exists key :: key in listed && key in livePre {
        return Err(Conflict);
      }
      var work := AbandonListed(listed, now, protector);
      if work.None? {
        return Err(Conflict);
      }
      tables := work.value;
      return Ok(|listed|);
    }

    method AbandonListed(listed: set<nat>, now: u64, protector: Protector) returns (released: Option<Tables>)
      requires listed == Stale(tables)
      ensures AuthInvariant.Coupled(tables) ==> released == Some(AbandonAll(tables, listed, now, protector))
    {
      hide AuthInvariant.Coupled, AbandonAll, AbandonOne, AuthSteps.Ended;
      var work := tables;
      var todo := listed;
      AbandonNone(tables, now, protector);
      while todo != {}
        invariant todo <= listed && work.attempts.Keys == tables.attempts.Keys
        invariant AuthInvariant.Coupled(tables) ==> work == AbandonAll(tables, listed - todo, now, protector)
        decreases |todo|
      {
        var key :| key in todo;
        if AuthInvariant.Coupled(tables) {
          AuthLaws.AbandonOneMore(tables, listed - todo, key, now, protector);
          assert listed - todo + {key} == listed - (todo - {key});
        }
        released := AbandonOne(work, key, now, protector);
        if released.None? {
          return;
        }
        work := released.value;
        todo := todo - {key};
      }
      assert listed - todo == listed;
      return Some(work);
    }

    static lemma AbandonNone(t: Tables, now: u64, protector: Protector)
      ensures AbandonAll(t, Stale(t) - Stale(t), now, protector) == t
    {
      assert Stale(t) - Stale(t) == {};
      assert AbandonAll(t, {}, now, protector) == t;
    }

    method RecoverAuthorizationOutcome(attempt: nat, transaction: nat, now: u64, protector: Protector)
      returns (answer: Result<AttemptState, StoreError>)
      modifies this`tables
      ensures (State(), answer) == RecoverOutcome(old(State()), attempt, transaction, now, protector)
    {
      if attempt == 0 || transaction == 0 || now > I64_MAX {
        return Err(Rejected);
      }
      if attempt in liveMembership {
        return Err(Conflict);
      }
      if attempt !in tables.attempts || tables.attempts[attempt].transaction != Some(transaction) {
        return Err(Conflict);
      }
      var a := tables.attempts[attempt];
      var id := a.request.invitationId;
      var committed := transaction in tables.joins;
      if committed && !Agrees(tables.joins[transaction], a.request) {
        return Err(Conflict);
      }
      match a.state {
        case Committed =>
          if committed && HasOpening(tables, id, a.request.generation) && tables.openings[id].state.Consumed? {
            return Ok(Committed);
          }
          return Err(Conflict);
        case Abandoned =>
          return if committed then Err(Conflict) else Ok(Abandoned);
        case OutcomeUnknown =>
          if !HasOpening(tables, id, a.request.generation) || !tables.openings[id].state.Reserved? {
            return Err(Conflict);
          }
          var work := tables;
          var resolved := Abandoned;
          if committed {
            work := SetOpening(work, id, Erase(work.openings[id], Consumed));
            resolved := Committed;
          } else {
            work := SetOpening(work, id, Released(work.openings[id], now, protector));
          }
          tables := SetAttempt(work, attempt, resolved);
          return Ok(resolved);
        case _ =>
          return Err(Conflict);
      }
    }

    method LoadInvitation(id: nat, now: u64, protector: Protector) returns (answer: Result<Option<()>, StoreError>)
      modifies this`tables
      ensures (State(), answer) == Load(old(State()), id, now, protector)
    {
      if id == 0 || now > I64_MAX {
        return Err(Rejected);
      }
      if id !in tables.openings {
        return Ok(None);
      }
      var o := tables.openings[id];
      if !o.state.Available? {
        return Err(Rejected);
      }
      if o.expiresAt <= now {
        tables := SetOpening(tables, id, Erase(o, Unusable));
        return Err(Rejected);
      }
      var restored := protector(o.generation);
      if restored.Broken? || !restored.agrees {
        tables := SetOpening(tables, id, Erase(o, Unusable));
        return Err(Rejected);
      }
      return Ok(Some(()));
    }

    method SeedInviterReservation(id: nat, generation: nat, requestId: nat, expiresAt: u64, now: u64)
      returns (answer: Result<(), StoreError>)
      modifies this`tables
      ensures (State(), answer) == SeedReservation(old(State()), id, generation, requestId, expiresAt, now)
    {
      if id == 0 || generation == 0 || requestId == 0 || expiresAt <= now || expiresAt > I64_MAX {
        return Err(Rejected);
      }
      if HasOpening(tables, id, generation) {
        return Err(Conflict);
      }
      if id in tables.reservations {
        return Err(Rejected);
      }
      var row := ReservationRow(generation, requestId, expiresAt, false);
      tables := tables.(reservations := tables.reservations[id := row]);
      return Ok(());
    }

    method CommitSeededInviter(transaction: nat, row: JoinRow, now: u64, fault: PersistenceFault)
      returns (answer: Result<(), StoreError>)
      modifies this`tables
      ensures (State(), answer) == CommitSeeded(old(State()), transaction, row, now, fault)
    {
      if transaction == 0 || now > I64_MAX {
        return Err(Rejected);
      }
      if HasOpening(tables, row.invitationId, row.generation) {
        return Err(Conflict);
      }
      if transaction in tables.joins {
        return if tables.joins[transaction] == row then Ok(()) else Err(Conflict);
      }
      if row.invitationId !in tables.reservations {
        return Err(Rejected);
      }
      var r := tables.reservations[row.invitationId];
      if r.generation != row.generation || r.requestId != row.requestId || r.expiresAt <= now || r.consumed {
        return Err(Rejected);
      }
      if JoinClashes(tables, transaction, row) {
        return Err(Rejected);
      }
      var work := tables.(joins := tables.joins[transaction := row]);
      work := work.(reservations := work.reservations[row.invitationId := r.(consumed := true)]);
      if fault.BeforeCommit? {
        return Err(InjectedFailure);
      }
      tables := work;
      return if fault.AfterCommit? then Err(CommitUnknown) else Ok(());
    }

    method CommitAuthorizedInviter(m: Membership, row: JoinRow, leaf: nat, now: u64, fault: PersistenceFault)
      returns (answer: Result<(), StoreError>)
      modifies this
      ensures (State(), answer) == CommitAuthorized(old(State()), m, row, leaf, now, fault)
    {
      if m.scope != scope {
        return Err(Conflict);
      }
      liveMembership := Without(liveMembership, m.attempt);
      if now > I64_MAX {
        return Err(Rejected);
      }
      if !Authorizes(tables, m, row, leaf, now) {
        return Err(Conflict);
      }
      if m.transaction in tables.joins {
        return if tables.joins[m.transaction] == row then Ok(()) else Err(Conflict);
      }
      var work := tables;
      var a := work.attempts[m.attempt];
      if row.invitationId in work.reservations {
        return Err(Rejected);
      }
      var reservation := ReservationRow(row.generation, row.requestId, a.request.invitationExpiresAt, true);
      work := work.(reservations := work.reservations[row.invitationId := reservation]);
      if JoinClashes(work, m.transaction, row) {
        return Err(Rejected);
      }
      work := work.(joins := work.joins[m.transaction := row]);
      work := work.(attempts := work.attempts[m.attempt := a.(state := Committed)]);
      work := work.(openings := work.openings[row.invitationId := Erase(work.openings[row.invitationId], Consumed)]);
      if fault.BeforeCommit? {
        return Err(InjectedFailure);
      }
      tables := work;
      return if fault.AfterCommit? then Err(CommitUnknown) else Ok(());
    }
  }
}
