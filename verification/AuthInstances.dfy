/**
 Runs from an empty store that reach the states in which the code does not do what its callers may expect: compaction
 blocked by a live attempt, an attempt stranded for good, and tables that are refused when the store is reopened.
 */
module AuthInstances {
  import opened Common
  import opened AuthTables
  import opened Authorization
  import opened AuthInvariant
  import opened AuthLaws
  import opened AuthRecovery
  import opened AuthStranded

  const POLICY := Policy(8, 8)
  const START := Open(POLICY, 0)
  const FIRST := Request(5, 6, 2, 3, 4, 8, 10, 50, 100)
  const SECOND := Request(5, 6, 12, 13, 14, 8, 10, 50, 100)
  const SEEDED_ROW := JoinRow(9, 3, 11, 12, 0)

  function Honest(generation: nat): Restoration {
    Restored(true)
  }

  function HandleOf(attempt: nat): Handle {
    Handle(0, attempt, 5, 6)
  }

  /** A store holding the invitation 5 of generation 6. */
  function Holding(state: OpeningState, attempts: map<nat, Attempt>, joins: map<nat, JoinRow>,
                   reservations: map<nat, ReservationRow>, livePre: seq<nat>, liveMembership: seq<nat>): Storage
  {
    Storage(POLICY, 0, Tables(map[5 := Opening(6, 100, state, false)], attempts, joins, reservations), livePre, liveMembership)
  }

  // ---------- composing steps ----------

  lemma {:induction false} RunMore(s: Storage, steps: seq<Step>, step: Step)
    ensures Run(s, steps + [step]) == Next(Run(s, steps), step)
    decreases |steps|
  {
    hide Next;
    if steps == [] {
      assert Run(Next(s, step), [step][1..]) == Next(s, step);
    } else {
      assert (steps + [step])[1..] == steps[1..] + [step];
      RunMore(Next(s, steps[0]), steps[1..], step);
    }
  }

  lemma {:induction false} FreshWithoutIssues(s: Storage, steps: seq<Step>, used: set<nat>)
    requires forall i :: 0 <= i < |steps| ==> !steps[i].Issuing?
    ensures AllFresh(s, steps, used)
    decreases |steps|
  {
    hide Next;
    if steps != [] {
      FreshWithoutIssues(Next(s, steps[0]), steps[1..], used + Generations(steps[0]));
    }
  }

  /** With nothing expired, compaction leaves the tables as they are. */
  lemma NothingExpired(t: Tables, now: u64)
    requires forall id :: id in t.openings ==> t.openings[id].expiresAt > now
    requires forall key :: key in t.attempts ==> t.attempts[key].request.invitationExpiresAt > now
    ensures Compact(t, now) == Some(t)
  {
    assert RetireReserved(t, now) == t;
    assert DropTerminal(t, now) == t;
    assert RetireAvailable(t, now) == t;
    var dropped := DropOpenings(t, now);
    assert dropped.Some? && dropped.value.openings == t.openings;
  }

  // ---------- the steps ----------

  const ISSUE := Issuing(5, 6, 1, 100, 1)

  function ReserveAs(r: Request, attempt: nat): Step {
    Reserving(r, 20, Honest, Some(attempt))
  }

  lemma Issued()
    ensures Next(START, ISSUE) == Holding(Available, map[], map[], map[], [], [])
  {
    NothingExpired(START.tables, 1);
  }

  lemma ReservedAs(attempts: map<nat, Attempt>, r: Request, attempt: nat)
    requires |attempts| <= 1 && attempt != 0 && attempt !in attempts && (r == FIRST || r == SECOND)
    requires forall key :: key in attempts ==>
               attempts[key].request.invitationExpiresAt == 100 && !ClashesWith(attempts[key], r)
    ensures Next(Holding(Available, attempts, map[], map[], [], []), ReserveAs(r, attempt))
            == Holding(Reserved, attempts[attempt := Attempt(r, PendingApproval, None)], map[], map[], [attempt], [])
  {
    hide Compact, LiveKeys, KeysOf;
    var s := Holding(Available, attempts, map[], map[], [], []);
    FewAttempts(s.tables);
    NothingExpired(s.tables, 20);
    assert SetOpening(s.tables, 5, Opening(6, 100, Reserved, false)).openings == map[5 := Opening(6, 100, Reserved, false)];
    assert HasOpening(s.tables, 5, 6);
  }

  lemma FewAttempts(t: Tables)
    ensures |LiveKeys(t)| <= |t.attempts| && |KeysOf(t, 5, 6)| <= |t.attempts|
  {
    SubsetSize(LiveKeys(t), t.attempts.Keys);
    SubsetSize(KeysOf(t, 5, 6), t.attempts.Keys);
  }

  lemma AbandonedFirst()
    ensures Next(Holding(Reserved, map[1 := Attempt(FIRST, PendingApproval, None)], map[], map[], [1], []),
                 AbandoningPending(HandleOf(1), 20, Honest))
            == Holding(Available, map[1 := Attempt(FIRST, Abandoned, None)], map[], map[], [], [])
  {
  }

  lemma ApprovedAs(attempts: map<nat, Attempt>, r: Request, attempt: nat)
    requires attempt in attempts && attempts[attempt] == Attempt(r, PendingApproval, None) && (r == FIRST || r == SECOND)
    ensures Next(Holding(Reserved, attempts, map[], map[], [attempt], []), Approving(HandleOf(attempt), 20, Honest))
            == Holding(Reserved, attempts[attempt := Attempt(r, Approved, None)], map[], map[], [attempt], [])
  {
    var s := Holding(Reserved, attempts, map[], map[], [attempt], []);
    assert HandleFits(s.tables, HandleOf(attempt), PendingApproval);
  }

  lemma BegunAs(attempts: map<nat, Attempt>, r: Request, attempt: nat)
    requires attempt in attempts && attempts[attempt] == Attempt(r, Approved, None) && (r == FIRST || r == SECOND)
    requires forall key :: key in attempts ==> attempts[key].transaction == None
    ensures Next(Holding(Reserved, attempts, map[], map[], [attempt], []), Beginning(HandleOf(attempt), 7, 20, Honest))
            == Holding(Reserved, attempts[attempt := Attempt(r, OutcomeUnknown, Some(7))], map[], map[], [], [attempt])
  {
    var s := Holding(Reserved, attempts, map[], map[], [attempt], []);
    assert HandleFits(s.tables, HandleOf(attempt), Approved);
  }

  /** The membership handle is dropped, and an unrelated join is seeded and committed under the transaction id 7. */
  lemma SeededOver(state: OpeningState, attempts: map<nat, Attempt>)
    ensures Next(Holding(state, attempts, map[], map[], [], []), Seeding(9, 3, 11, 100, 20))
            == Holding(state, attempts, map[], map[9 := ReservationRow(3, 11, 100, false)], [], [])
    ensures Next(Holding(state, attempts, map[], map[9 := ReservationRow(3, 11, 100, false)], [], []),
                 CommittingSeeded(7, SEEDED_ROW, 20, NoFault))
            == Holding(state, attempts, map[7 := SEEDED_ROW], map[9 := ReservationRow(3, 11, 100, true)], [], [])
  {
    var s := Holding(state, attempts, map[], map[9 := ReservationRow(3, 11, 100, false)], [], []);
    assert !JoinClashes(s.tables, 7, SEEDED_ROW);
    assert s.tables.joins[7 := SEEDED_ROW] == map[7 := SEEDED_ROW];
  }

  // ---------- blocked compaction ----------

  function RetryRun(): seq<Step> {
    [ISSUE] + [ReserveAs(FIRST, 1)] + [AbandoningPending(HandleOf(1), 20, Honest)] + [ReserveAs(SECOND, 2)]
  }

  const RETRIED := map[1 := Attempt(FIRST, Abandoned, None), 2 := Attempt(SECOND, PendingApproval, None)]

  lemma RetryReaches()
    ensures Run(START, RetryRun()) == Holding(Reserved, RETRIED, map[], map[], [2], [])
    ensures AllFresh(START, RetryRun(), {})
  {
    hide Next;
    var abandoned := map[1 := Attempt(FIRST, Abandoned, None)];
    Issued();
    ReservedAs(map[], FIRST, 1);
    AbandonedFirst();
    ReservedAs(abandoned, SECOND, 2);
    assert abandoned[2 := Attempt(SECOND, PendingApproval, None)] == RETRIED;
    var pending := map[1 := Attempt(FIRST, PendingApproval, None)];
    assert map[][1 := Attempt(FIRST, PendingApproval, None)] == pending;
    var steps := [ISSUE];
    assert Run(START, steps) == Next(START, ISSUE) by { RunMore(START, [], ISSUE); assert [] + [ISSUE] == steps; }
    RunMore(START, steps, ReserveAs(FIRST, 1));
    RunMore(START, steps + [ReserveAs(FIRST, 1)], AbandoningPending(HandleOf(1), 20, Honest));
    RunMore(START, steps + [ReserveAs(FIRST, 1)] + [AbandoningPending(HandleOf(1), 20, Honest)], ReserveAs(SECOND, 2));
    StartsFresh(RetryRun());
  }

  lemma StartsFresh(steps: seq<Step>)
    requires |steps| > 0 && steps[0] == ISSUE && forall i :: 1 <= i < |steps| ==> !steps[i].Issuing?
    ensures AllFresh(START, steps, {})
  {
    hide Next;
    FreshWithoutIssues(Next(START, ISSUE), steps[1..], {} + Generations(ISSUE));
  }

  /**
   A store reached by issuing an invitation, abandoning one attempt on it and reserving another: once the invitation
   has expired, compaction fails, and issuing a fresh invitation into the otherwise empty store is Rejected.
   */
  lemma RetryBlocksCompaction()
    ensures var s := Run(START, RetryRun());
            && AllFresh(START, RetryRun(), {}) && POLICY.Valid()
            && Compact(s.tables, 100) == None
            && Issue(s, 20, 21, 100, 200, 100) == (s, Err(Rejected))
  {
    hide Next, Run, Compact;
    RetryReaches();
    var s := Run(START, RetryRun());
    assert Coupled(s.tables) by { RunKeepsCoupled(START, RetryRun(), {}); }
    assert OwnsTerminal(s.tables, 5, 100, 1);
    assert StuckReserved(s.tables, 5, 100);
    CompactionDecided(s.tables, 100);
  }

  // ---------- an attempt stranded for good ----------

  function StrandingRun(): seq<Step> {
    RetryRun() + [Approving(HandleOf(2), 20, Honest)] + [Beginning(HandleOf(2), 7, 20, Honest)]
    + [DroppingMembership(Membership(0, 2, 7))] + [Seeding(9, 3, 11, 100, 20)]
    + [CommittingSeeded(7, SEEDED_ROW, 20, NoFault)]
  }

  const UNRESOLVED := map[1 := Attempt(FIRST, Abandoned, None), 2 := Attempt(SECOND, OutcomeUnknown, Some(7))]

  lemma StrandingReaches()
    ensures Run(START, StrandingRun())
            == Holding(Reserved, UNRESOLVED, map[7 := SEEDED_ROW], map[9 := ReservationRow(3, 11, 100, true)], [], [])
    ensures AllFresh(START, StrandingRun(), {})
  {
    hide Run, Next, Holding;
    var approved := RETRIED[2 := Attempt(SECOND, Approved, None)];
    RetryReaches();
    ApprovedAs(RETRIED, SECOND, 2);
    BegunAs(approved, SECOND, 2);
    assert approved[2 := Attempt(SECOND, OutcomeUnknown, Some(7))] == UNRESOLVED;
    var steps := RetryRun();
    RunMore(START, steps, Approving(HandleOf(2), 20, Honest));
    steps := steps + [Approving(HandleOf(2), 20, Honest)];
    RunMore(START, steps, Beginning(HandleOf(2), 7, 20, Honest));
    steps := steps + [Beginning(HandleOf(2), 7, 20, Honest)];
    EndOfRun(steps, Reserved, UNRESOLVED, 2);
    StartsFresh(StrandingRun());
  }

  lemma DroppedHandle(state: OpeningState, attempts: map<nat, Attempt>, attempt: nat)
    ensures Next(Holding(state, attempts, map[], map[], [], [attempt]), DroppingMembership(Membership(0, attempt, 7)))
            == Holding(state, attempts, map[], map[], [], [])
  {
  }

  lemma EndOfRun(steps: seq<Step>, state: OpeningState, attempts: map<nat, Attempt>, attempt: nat)
    requires Run(START, steps) == Holding(state, attempts, map[], map[], [], [attempt])
    ensures Run(START, steps + [DroppingMembership(Membership(0, attempt, 7))] + [Seeding(9, 3, 11, 100, 20)]
                       + [CommittingSeeded(7, SEEDED_ROW, 20, NoFault)])
            == Holding(state, attempts, map[7 := SEEDED_ROW], map[9 := ReservationRow(3, 11, 100, true)], [], [])
  {
    hide Run, Next;
    DroppedHandle(state, attempts, attempt);
    SeededOver(state, attempts);
    var dropped := steps + [DroppingMembership(Membership(0, attempt, 7))];
    RunMore(START, steps, DroppingMembership(Membership(0, attempt, 7)));
    RunMore(START, dropped, Seeding(9, 3, 11, 100, 20));
    RunMore(START, dropped + [Seeding(9, 3, 11, 100, 20)], CommittingSeeded(7, SEEDED_ROW, 20, NoFault));
  }

  /** A reachable store whose attempt 2 can never be recovered and which, from time 100 on, never compacts again. */
  lemma StrandedStoreReachable(steps: seq<Step>, now: u64)
    requires AllFresh(Run(START, StrandingRun()), steps, {6}) && 100 <= now
    ensures AllFresh(START, StrandingRun(), {}) && Stranded(Run(START, StrandingRun()).tables, 2)
    ensures var last := Run(Run(START, StrandingRun()), steps);
            Stranded(last.tables, 2) && Compact(last.tables, now) == None
  {
    hide Next, Run, Compact, AllFresh, RecoverOutcome;
    StrandingReaches();
    var s := Run(START, StrandingRun());
    assert Coupled(s.tables) by { RunKeepsCoupled(START, StrandingRun(), {}); }
    StrandedForGood(s, steps, {6}, 2);
    BlockedForGood(s, steps, {6}, 2, 1, now);
  }

  // ---------- tables that do not reopen ----------

  function TakeoverRun(): seq<Step> {
    [ISSUE] + [ReserveAs(FIRST, 1)] + [Approving(HandleOf(1), 20, Honest)] + [Beginning(HandleOf(1), 7, 20, Honest)]
    + [DroppingMembership(Membership(0, 1, 7))] + [RecoveringOutcome(1, 7, 20, Honest)]
    + [Seeding(9, 3, 11, 100, 20)] + [CommittingSeeded(7, SEEDED_ROW, 20, NoFault)]
  }

  lemma RecoveredFirst()
    ensures Next(Holding(Reserved, map[1 := Attempt(FIRST, OutcomeUnknown, Some(7))], map[], map[], [], []),
                 RecoveringOutcome(1, 7, 20, Honest))
            == Holding(Available, map[1 := Attempt(FIRST, Abandoned, Some(7))], map[], map[], [], [])
  {
  }

  lemma TakeoverBegins()
    ensures Run(START, [ISSUE] + [ReserveAs(FIRST, 1)] + [Approving(HandleOf(1), 20, Honest)]
                       + [Beginning(HandleOf(1), 7, 20, Honest)])
            == Holding(Reserved, map[1 := Attempt(FIRST, OutcomeUnknown, Some(7))], map[], map[], [], [1])
  {
    hide Next;
    Issued();
    ReservedAs(map[], FIRST, 1);
    var pending := map[1 := Attempt(FIRST, PendingApproval, None)];
    assert map[][1 := Attempt(FIRST, PendingApproval, None)] == pending;
    var approved := map[1 := Attempt(FIRST, Approved, None)];
    ApprovedAs(pending, FIRST, 1);
    assert pending[1 := Attempt(FIRST, Approved, None)] == approved;
    BegunAs(approved, FIRST, 1);
    assert approved[1 := Attempt(FIRST, OutcomeUnknown, Some(7))] == map[1 := Attempt(FIRST, OutcomeUnknown, Some(7))];
    var steps := [ISSUE];
    assert Run(START, steps) == Next(START, ISSUE) by { RunMore(START, [], ISSUE); assert [] + [ISSUE] == steps; }
    RunMore(START, steps, ReserveAs(FIRST, 1));
    steps := steps + [ReserveAs(FIRST, 1)];
    RunMore(START, steps, Approving(HandleOf(1), 20, Honest));
    RunMore(START, steps + [Approving(HandleOf(1), 20, Honest)], Beginning(HandleOf(1), 7, 20, Honest));
  }

  lemma TakeoverReaches()
    ensures Run(START, TakeoverRun())
            == Holding(Available, map[1 := Attempt(FIRST, Abandoned, Some(7))], map[7 := SEEDED_ROW],
                       map[9 := ReservationRow(3, 11, 100, true)], [], [])
    ensures AllFresh(START, TakeoverRun(), {})
  {
    hide Run, Next;
    TakeoverBegins();
    var unknown := map[1 := Attempt(FIRST, OutcomeUnknown, Some(7))];
    var abandoned := map[1 := Attempt(FIRST, Abandoned, Some(7))];
    DroppedHandle(Reserved, unknown, 1);
    RecoveredFirst();
    SeededOver(Available, abandoned);
    var steps := [ISSUE] + [ReserveAs(FIRST, 1)] + [Approving(HandleOf(1), 20, Honest)]
                 + [Beginning(HandleOf(1), 7, 20, Honest)];
    RunMore(START, steps, DroppingMembership(Membership(0, 1, 7)));
    steps := steps + [DroppingMembership(Membership(0, 1, 7))];
    RunMore(START, steps, RecoveringOutcome(1, 7, 20, Honest));
    steps := steps + [RecoveringOutcome(1, 7, 20, Honest)];
    RunMore(START, steps, Seeding(9, 3, 11, 100, 20));
    RunMore(START, steps + [Seeding(9, 3, 11, 100, 20)], CommittingSeeded(7, SEEDED_ROW, 20, NoFault));
    StartsFresh(TakeoverRun());
  }

  /** A reachable store that is refused when reopened: a seeded commit reused a recovered attempt's transaction id. */
  lemma TakeoverBreaksReopening()
    ensures AllFresh(START, TakeoverRun(), {}) && POLICY.Valid()
    ensures !Validates(POLICY, Run(START, TakeoverRun()).tables)
  {
    hide Run, Next;
    TakeoverReaches();
    var t := Run(START, TakeoverRun()).tables;
    assert t.attempts[1].transaction.value in t.joins;
  }
}
