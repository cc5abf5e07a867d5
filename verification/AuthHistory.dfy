/** What authorization runs remember: replay freedom across compaction, and attempts that only move forward. */
module AuthHistory {
  import opened Common
  import opened AuthTables
  import opened Authorization
  import opened AuthInvariant
  import opened AuthSteps
  import opened AuthLaws

  // ---------- attempts move forward ----------

  /** One move along the lifecycle. */
  predicate Edge(from: AttemptState, to: AttemptState) {
    match from
    case PendingApproval => to.Approved? || to.Declined? || to.Abandoned?
    case Approved => to.OutcomeUnknown? || to.Abandoned?
    case OutcomeUnknown => to.Committed? || to.Abandoned?
    case _ => false
  }

  predicate Moved(a: Attempt, b: Attempt) {
    && b.request == a.request
    && (a.transaction.Some? ==> b.transaction == a.transaction)
    && (b.state == a.state || Edge(a.state, b.state))
  }

  /** Any number of moves. */
  predicate Later(from: AttemptState, to: AttemptState) {
    to == from || from.PendingApproval?
    || (from.Approved? && (to.OutcomeUnknown? || to.Committed? || to.Abandoned?))
    || (from.OutcomeUnknown? && (to.Committed? || to.Abandoned?))
  }

  /** No attempt is lost, every attempt moves at most one edge, and no generation is opened. */
  predicate Persist(t: Tables, after: Tables) {
    && (forall key :: key in t.attempts ==> key in after.attempts && Moved(t.attempts[key], after.attempts[key]))
    && (forall id :: id in after.openings ==> id in t.openings && after.openings[id].generation == t.openings[id].generation)
  }

  /** And no attempt is added. */
  predicate Steady(t: Tables, after: Tables) {
    Persist(t, after) && after.attempts.Keys == t.attempts.Keys
  }

  lemma EndPersists(s: Storage, h: Handle, expected: AttemptState, final: AttemptState, now: u64, protector: Protector)
    requires Edge(expected, final) && !final.Approved? && !final.OutcomeUnknown?
    ensures Steady(s.tables, End(s, h, expected, final, now, protector).0.tables)
  {
  }

  lemma BeginPersists(s: Storage, h: Handle, transaction: nat, now: u64, protector: Protector)
    requires HandleFits(s.tables, h, Approved) ==> s.tables.attempts[h.attempt].transaction.None?
    ensures Steady(s.tables, BeginMembership(s, h, transaction, now, protector).0.tables)
  {
    hide End, TransactionTaken, HasOpening, RequestExpired;
    EndPersists(s, h, Approved, Abandoned, now, protector);
  }

  lemma ApprovedIsUnbound(t: Tables, key: nat)
    requires RowsOk(t) && key in t.attempts && t.attempts[key].state.Approved?
    ensures t.attempts[key].transaction.None?
  {
    assert RowOk(t, key);
  }

  lemma RecoverOutcomePersists(s: Storage, attempt: nat, transaction: nat, now: u64, protector: Protector)
    ensures Steady(s.tables, RecoverOutcome(s, attempt, transaction, now, protector).0.tables)
  {
  }

  lemma ApprovePersists(s: Storage, h: Handle, now: u64, protector: Protector)
    ensures Steady(s.tables, Approve(s, h, now, protector).0.tables)
  {
    hide End, HasOpening, RequestExpired;
    EndPersists(s, h, PendingApproval, Abandoned, now, protector);
  }

  lemma RowsElsewherePersist(t: Tables, after: Tables)
    requires after.attempts == t.attempts && after.openings.Keys == t.openings.Keys
    requires forall id :: id in t.openings ==> after.openings[id].generation == t.openings[id].generation
    ensures Steady(t, after)
  {
  }

  lemma RecoverPrePersists(s: Storage, now: u64, protector: Protector)
    ensures Steady(s.tables, RecoverPre(s, now, protector).0.tables)
  {
  }

  lemma CommitPersists(s: Storage, m: Membership, row: JoinRow, leaf: nat, now: u64, fault: PersistenceFault)
    ensures Steady(s.tables, CommitAuthorized(s, m, row, leaf, now, fault).0.tables)
  {
    hide JoinClashes;
  }

  lemma OthersPersist(s: Storage, step: Step)
    requires Coupled(s.tables) && !step.Issuing? && !step.Reserving?
    ensures Steady(s.tables, Next(s, step).tables)
  {
    hide End, Approve, JoinClashes, BeginMembership, RecoverPre, RecoverOutcome, CommitAuthorized, Steady;
    hide RowsOk, PairsOk, OpeningsOk, GenerationsOk, JoinsOk;
    match step
    case Approving(h, now, protector) => ApprovePersists(s, h, now, protector);
    case Beginning(h, transaction, now, protector) =>
      if HandleFits(s.tables, h, Approved) {
        ApprovedIsUnbound(s.tables, h.attempt);
      }
      BeginPersists(s, h, transaction, now, protector);
    case AbandoningPending(h, now, protector) => EndPersists(s, h, PendingApproval, Abandoned, now, protector);
    case Declining(h, now, protector) => EndPersists(s, h, PendingApproval, Declined, now, protector);
    case AbandoningApproved(h, now, protector) => EndPersists(s, h, Approved, Abandoned, now, protector);
    case RecoveringOutcome(attempt, transaction, now, protector) =>
      RecoverOutcomePersists(s, attempt, transaction, now, protector);
    case RecoveringPre(now, protector) => RecoverPrePersists(s, now, protector);
    case CommittingAuthorized(m, row, leaf, now, fault) => CommitPersists(s, m, row, leaf, now, fault);
    case _ => RowsElsewherePersist(s.tables, Next(s, step).tables);
  }

  /** Issuing and reserving compact first, and then add one row or spoil one opening. */
  lemma IssueShape(s: Storage, step: Step)
    requires Coupled(s.tables) && step.Issuing? && Next(s, step).tables != s.tables
    ensures var kept := Kept(s.tables, step.now);
            && !AnyStuck(s.tables, step.now)
            && step.id !in kept.openings
            && Next(s, step).tables
               == SetOpening(kept, step.id, Opening(step.generation, step.expiresAt, Available, false))
  {
    hide Coupled, Compact, AnyStuck;
    CompactionDecided(s.tables, step.now);
  }

  lemma ReserveShape(s: Storage, step: Step)
    requires Coupled(s.tables) && step.Reserving? && Next(s, step).tables != s.tables
    ensures var kept := Kept(s.tables, step.now);
            && !AnyStuck(s.tables, step.now) && step.r.invitationExpiresAt > step.now
            && HasOpening(kept, step.r.invitationId, step.r.generation)
            && if Reserve(s, step.r, step.now, step.protector, step.drawn).1.Ok? then
                 && step.drawn.Some? && step.drawn.value !in kept.attempts && !Clashes(kept, step.r)
                 && Next(s, step).tables == WithReserved(kept, step.drawn.value, step.r)
               else
                 Next(s, step).tables
                 == SetOpening(kept, step.r.invitationId, Erase(kept.openings[step.r.invitationId], Unusable))
  {
    hide Coupled, Compact, AnyStuck, Clashes, LiveKeys, KeysOf;
    CompactionDecided(s.tables, step.now);
  }

  // ---------- what compaction forgets ----------

  predicate GenerationOpen(t: Tables, generation: nat) {
    exists id :: id in t.openings && t.openings[id].generation == generation
  }

  /** An attempt row that compaction drops takes its generation's opening with it. */
  lemma KeptForgetsWhole(t: Tables, now: u64, key: nat)
    requires Coupled(t) && !AnyStuck(t, now) && key in t.attempts && key !in Kept(t, now).attempts
    ensures !GenerationOpen(Kept(t, now), t.attempts[key].request.generation)
  {
    hide PairsOk, OpeningsOk, JoinsOk;
    var id := t.attempts[key].request.invitationId;
    assert RowOk(t, key);
    assert OwnsTerminal(t, id, now, key);
    assert !StuckReserved(t, id, now);
    forall other | other in Kept(t, now).openings
      ensures t.openings[other].generation != t.attempts[key].request.generation
    {
      assert GenerationsApart(t.openings, id, other);
    }
  }

  // ---------- replay freedom ----------

  /** Requests for one generation share no request id, nonce or fingerprint. */
  predicate Differ(a: Request, b: Request) {
    a.generation == b.generation ==>
      a.requestId != b.requestId && a.nonce != b.nonce && a.fingerprint != b.fingerprint
  }

  predicate Present(t: Tables, r: Request) {
    exists key :: key in t.attempts && t.attempts[key].request == r
  }

  predicate Remembered(t: Tables, r: Request) {
    Present(t, r) || !GenerationOpen(t, r.generation)
  }

  predicate AllDiffer(history: seq<Request>) {
    forall i, k :: 0 <= i < k < |history| ==> Differ(history[i], history[k])
  }

  /** Every request ever admitted is still in the table, or its generation can no longer be reserved. */
  predicate HistoryOk(t: Tables, used: set<nat>, history: seq<Request>) {
    && (forall id :: id in t.openings ==> t.openings[id].generation in used)
    && (forall i :: 0 <= i < |history| ==> history[i].generation in used && Remembered(t, history[i]))
    && AllDiffer(history)
  }

  lemma PersistRemembers(t: Tables, after: Tables, r: Request)
    requires Persist(t, after) && Remembered(t, r)
    ensures Remembered(after, r)
  {
    if Present(t, r) {
      var key :| key in t.attempts && t.attempts[key].request == r;
      assert after.attempts[key].request == r;
    }
  }

  lemma KeptRemembers(t: Tables, now: u64, r: Request)
    requires Coupled(t) && !AnyStuck(t, now) && Remembered(t, r)
    ensures Remembered(Kept(t, now), r)
  {
    hide Coupled, AnyStuck;
    if Present(t, r) {
      var key :| key in t.attempts && t.attempts[key].request == r;
      if key !in Kept(t, now).attempts {
        KeptForgetsWhole(t, now, key);
      } else {
        assert Kept(t, now).attempts[key].request == r;
      }
    }
  }

  lemma OpenRemembers(t: Tables, id: nat, o: Opening, r: Request)
    requires Remembered(t, r) && o.generation != r.generation && id !in t.openings
    ensures Remembered(SetOpening(t, id, o), r)
  {
    var after := SetOpening(t, id, o);
    if Present(t, r) {
      var key :| key in t.attempts && t.attempts[key].request == r;
      assert after.attempts[key].request == r;
    }
  }

  /** The request a step admits, if any. */
  function Inserted(s: Storage, step: Step): seq<Request> {
    if step.Reserving? && Reserve(s, step.r, step.now, step.protector, step.drawn).1.Ok? then [step.r] else []
  }

  function InsertedBy(s: Storage, steps: seq<Step>): seq<Request>
    decreases |steps|
  {
    if steps == [] then [] else Inserted(s, steps[0]) + InsertedBy(Next(s, steps[0]), steps[1..])
  }

  lemma HistoryOfIssue(s: Storage, step: Step, used: set<nat>, history: seq<Request>)
    requires Coupled(s.tables) && step.Issuing? && step.generation !in used && Next(s, step).tables != s.tables
    requires HistoryOk(s.tables, used, history)
    ensures HistoryOk(Next(s, step).tables, used + {step.generation}, history)
  {
    hide Coupled, AnyStuck, Remembered, Next, AllDiffer;
    IssueShape(s, step);
    var kept := Kept(s.tables, step.now);
    forall i | 0 <= i < |history| ensures Remembered(Next(s, step).tables, history[i]) {
      KeptRemembers(s.tables, step.now, history[i]);
      OpenRemembers(kept, step.id, Opening(step.generation, step.expiresAt, Available, false), history[i]);
    }
  }

  lemma HistoryOfReserve(s: Storage, step: Step, used: set<nat>, history: seq<Request>)
    requires Coupled(s.tables) && step.Reserving? && Next(s, step).tables != s.tables
    requires HistoryOk(s.tables, used, history)
    ensures HistoryOk(Next(s, step).tables, used, history + Inserted(s, step))
  {
    hide Coupled, AnyStuck, Remembered, Next, Reserve, Clashes;
    ReserveShape(s, step);
    var kept := Kept(s.tables, step.now);
    var after := Next(s, step).tables;
    assert Persist(kept, after);
    forall i | 0 <= i < |history| ensures Remembered(kept, history[i]) && Remembered(after, history[i]) {
      KeptRemembers(s.tables, step.now, history[i]);
      PersistRemembers(kept, after, history[i]);
    }
    if Inserted(s, step) != [] {
      forall i | 0 <= i < |history| ensures Differ(history[i], step.r) {
        AdmittedDiffers(kept, step.r, history[i]);
      }
      assert after.attempts[step.drawn.value].request == step.r;
      PresentIsRemembered(after, step.drawn.value);
    }
  }

  lemma PresentIsRemembered(t: Tables, key: nat)
    requires key in t.attempts
    ensures Remembered(t, t.attempts[key].request)
  {
  }

  lemma AdmittedDiffers(t: Tables, r: Request, h: Request)
    requires HasOpening(t, r.invitationId, r.generation) && !Clashes(t, r) && Remembered(t, h)
    ensures Differ(h, r)
  {
    if h.generation == r.generation {
      assert GenerationOpen(t, r.generation);
      var key :| key in t.attempts && t.attempts[key].request == h;
      assert !ClashesWith(t.attempts[key], r);
    }
  }

  lemma HistoryOfStep(s: Storage, step: Step, used: set<nat>, history: seq<Request>)
    requires Coupled(s.tables) && Generations(step) !! used && HistoryOk(s.tables, used, history)
    ensures HistoryOk(Next(s, step).tables, used + Generations(step), history + Inserted(s, step))
  {
    hide Coupled, Next, Reserve, Remembered, AllDiffer;
    if Next(s, step).tables == s.tables {
      NoChangeNoInsert(s, step);
      assert history + Inserted(s, step) == history;
    } else if step.Issuing? {
      HistoryOfIssue(s, step, used, history);
      assert history + Inserted(s, step) == history;
    } else if step.Reserving? {
      HistoryOfReserve(s, step, used, history);
    } else {
      OthersPersist(s, step);
      assert history + Inserted(s, step) == history;
      forall i | 0 <= i < |history| ensures Remembered(Next(s, step).tables, history[i]) {
        PersistRemembers(s.tables, Next(s, step).tables, history[i]);
      }
    }
  }

  lemma NoChangeNoInsert(s: Storage, step: Step)
    requires Coupled(s.tables) && Next(s, step).tables == s.tables
    ensures Inserted(s, step) == []
  {
    hide Coupled, Compact, Clashes, LiveKeys, KeysOf, HasOpening;
    if step.Reserving? && Reserve(s, step.r, step.now, step.protector, step.drawn).1.Ok? {
      CompactionDecided(s.tables, step.now);
    }
  }

  /** Over any run: the requests ever admitted for one generation are pairwise different in all three ids. */
  lemma {:induction false} ReplayFreedom(s: Storage, steps: seq<Step>, used: set<nat>, history: seq<Request>)
    requires Coupled(s.tables) && AllFresh(s, steps, used) && HistoryOk(s.tables, used, history)
    ensures AllDiffer(history + InsertedBy(s, steps))
    decreases |steps|
  {
    hide Coupled, Next, Inserted, AllDiffer, Fresh, Remembered;
    if steps == [] {
      assert history + InsertedBy(s, steps) == history;
    } else {
      var own := Inserted(s, steps[0]);
      var rest := InsertedBy(Next(s, steps[0]), steps[1..]);
      HistoryOfStep(s, steps[0], used, history);
      NextKeepsCoupled(s, steps[0]);
      ReplayFreedom(Next(s, steps[0]), steps[1..], used + Generations(steps[0]), history + own);
      assert history + (own + rest) == (history + own) + rest;
    }
  }

  lemma NothingRemembered(t: Tables)
    requires t == Tables(map[], map[], map[], map[])
    ensures Coupled(t) && HistoryOk(t, {}, [])
  {
  }

  /** Replay freedom from an empty store, whatever the clocks say. */
  lemma AdmittedRequestsDiffer(policy: Policy, scope: nat, steps: seq<Step>)
    requires AllFresh(Open(policy, scope), steps, {})
    ensures AllDiffer(InsertedBy(Open(policy, scope), steps))
  {
    hide InsertedBy, AllFresh, AllDiffer;
    var none: seq<Request> := [];
    NothingRemembered(Open(policy, scope).tables);
    ReplayFreedom(Open(policy, scope), steps, {}, none);
    assert none + InsertedBy(Open(policy, scope), steps) == InsertedBy(Open(policy, scope), steps);
  }

  // ---------- the life of one attempt ----------

  /** The attempt is there and has only moved forward, or its generation is closed. */
  predicate Alive(t: Tables, key: nat, a: Attempt) {
    || (key in t.attempts && t.attempts[key].request == a.request
        && (a.transaction.Some? ==> t.attempts[key].transaction == a.transaction)
        && Later(a.state, t.attempts[key].state))
    || !GenerationOpen(t, a.request.generation)
  }

  lemma PersistAlive(t: Tables, after: Tables, key: nat, a: Attempt)
    requires Persist(t, after) && Alive(t, key, a)
    ensures Alive(after, key, a)
  {
  }

  lemma KeptAlive(t: Tables, now: u64, key: nat, a: Attempt)
    requires Coupled(t) && !AnyStuck(t, now) && Alive(t, key, a)
    ensures Alive(Kept(t, now), key, a)
  {
    hide Coupled, AnyStuck;
    if GenerationOpen(t, a.request.generation) && key !in Kept(t, now).attempts {
      KeptForgetsWhole(t, now, key);
    }
  }

  lemma StepAlive(s: Storage, step: Step, used: set<nat>, key: nat, a: Attempt)
    requires Coupled(s.tables) && Generations(step) !! used && a.request.generation in used
    requires Alive(s.tables, key, a)
    ensures Alive(Next(s, step).tables, key, a)
  {
    hide Coupled, Next, Reserve, AnyStuck, Later;
    if Next(s, step).tables == s.tables {
    } else if step.Issuing? {
      IssueShape(s, step);
      var kept := Kept(s.tables, step.now);
      KeptAlive(s.tables, step.now, key, a);
      OpenStaysClosed(kept, step.id, Opening(step.generation, step.expiresAt, Available, false), a.request.generation);
    } else if step.Reserving? {
      ReserveShape(s, step);
      KeptAlive(s.tables, step.now, key, a);
      assert Persist(Kept(s.tables, step.now), Next(s, step).tables);
      PersistAlive(Kept(s.tables, step.now), Next(s, step).tables, key, a);
    } else {
      OthersPersist(s, step);
      PersistAlive(s.tables, Next(s, step).tables, key, a);
    }
  }

  lemma OpenStaysClosed(t: Tables, id: nat, o: Opening, generation: nat)
    requires o.generation != generation && id !in t.openings
    ensures GenerationOpen(SetOpening(t, id, o), generation) ==> GenerationOpen(t, generation)
  {
    if GenerationOpen(SetOpening(t, id, o), generation) {
      var i :| i in SetOpening(t, id, o).openings && SetOpening(t, id, o).openings[i].generation == generation;
      assert t.openings[i].generation == generation;
    }
  }

  /** A generation that is not open is never opened again by a step that issues only unused generations. */
  lemma ClosedStaysClosed(s: Storage, step: Step, used: set<nat>, generation: nat)
    requires Coupled(s.tables) && Generations(step) !! used && generation in used
    requires GenerationOpen(Next(s, step).tables, generation)
    ensures GenerationOpen(s.tables, generation)
  {
    hide Coupled, Next, Reserve, AnyStuck, Moved;
    var after := Next(s, step).tables;
    if after == s.tables {
    } else if step.Issuing? {
      IssueShape(s, step);
      var kept := Kept(s.tables, step.now);
      OpenStaysClosed(kept, step.id, Opening(step.generation, step.expiresAt, Available, false), generation);
      var id :| id in kept.openings && kept.openings[id].generation == generation;
      assert s.tables.openings[id].generation == generation;
    } else {
      var id :| id in after.openings && after.openings[id].generation == generation;
      if step.Reserving? {
        ReserveShape(s, step);
      } else {
        OthersPersist(s, step);
      }
      assert s.tables.openings[id].generation == generation;
    }
  }

  lemma {:induction false} OpenFromTheStart(s: Storage, steps: seq<Step>, used: set<nat>, generation: nat)
    requires Coupled(s.tables) && AllFresh(s, steps, used) && generation in used
    requires GenerationOpen(Run(s, steps).tables, generation)
    ensures GenerationOpen(s.tables, generation)
    decreases |steps|
  {
    hide Coupled, Next, Fresh, GenerationOpen;
    if steps != [] {
      NextKeepsCoupled(s, steps[0]);
      OpenFromTheStart(Next(s, steps[0]), steps[1..], used + Generations(steps[0]), generation);
      ClosedStaysClosed(s, steps[0], used, generation);
    }
  }

  /** In any run an attempt only moves forward and keeps its transaction, until its generation is closed for good. */
  lemma {:induction false} AttemptsMoveForward(s: Storage, steps: seq<Step>, used: set<nat>, key: nat, a: Attempt)
    requires Coupled(s.tables) && AllFresh(s, steps, used) && a.request.generation in used && Alive(s.tables, key, a)
    ensures Alive(Run(s, steps).tables, key, a)
    decreases |steps|
  {
    hide Coupled, Next, Alive, Fresh;
    if steps != [] {
      StepAlive(s, steps[0], used, key, a);
      NextKeepsCoupled(s, steps[0]);
      AttemptsMoveForward(Next(s, steps[0]), steps[1..], used + Generations(steps[0]), key, a);
    }
  }

  /** A consumed generation is never consumed by another attempt, in any later state. */
  lemma ConsumedForGood(s: Storage, steps: seq<Step>, used: set<nat>, key: nat, other: nat)
    requires Coupled(s.tables) && AllFresh(s, steps, used)
    requires key in s.tables.attempts && s.tables.attempts[key].state.Committed?
    requires s.tables.attempts[key].request.generation in used
    requires other in Run(s, steps).tables.attempts && Run(s, steps).tables.attempts[other].state.Committed?
    requires Run(s, steps).tables.attempts[other].request.generation == s.tables.attempts[key].request.generation
    ensures other == key && Run(s, steps).tables.attempts[key] == s.tables.attempts[key]
  {
    hide OpeningsOk, JoinsOk, Run;
    var a := s.tables.attempts[key];
    AttemptsMoveForward(s, steps, used, key, a);
    RunKeepsCoupled(s, steps, used);
    var t := Run(s, steps).tables;
    assert RowOk(t, other);
    var id := t.attempts[other].request.invitationId;
    assert t.openings[id].generation == a.request.generation;
    assert RowOk(t, key);
    assert GenerationsApart(t.openings, id, a.request.invitationId);
    assert PairOk(t.attempts, key, other);
  }
}
