/** Recovery after a restart, the handles an open store still owes, and the checks made when it is reopened. */
module AuthRecovery {
  import opened Common
  import opened AuthTables
  import opened Authorization
  import opened AuthInvariant
  import opened AuthSteps
  import opened AuthLaws
  import opened AuthHistory

  // ---------- an outcome-unknown attempt ----------

  /** An unknown outcome resolves to Committed exactly when the join row carries the attempt's four bindings. */
  lemma OutcomeFollowsJoinRow(s: Storage, attempt: nat, transaction: nat, now: u64, protector: Protector)
    requires RowsOk(s.tables) && attempt in s.tables.attempts && attempt !in s.liveMembership
    requires s.tables.attempts[attempt].state.OutcomeUnknown?
    requires s.tables.attempts[attempt].transaction == Some(transaction) && now <= I64_MAX
    ensures var (after, answer) := RecoverOutcome(s, attempt, transaction, now, protector);
            var a := s.tables.attempts[attempt];
            && (answer == Ok(Committed) <==> transaction in s.tables.joins && Agrees(s.tables.joins[transaction], a.request))
            && (answer == Ok(Abandoned) <==> transaction !in s.tables.joins)
            && (answer.Ok? ==> after.tables.attempts[attempt] == a.(state := answer.value))
            && (answer.Err? ==> after == s && answer.error == Conflict)
            && after.tables.joins == s.tables.joins
  {
    assert RowOk(s.tables, attempt);
  }

  // ---------- join rows under an abandoned attempt's transaction id ----------

  /** No abandoned attempt's transaction has a join row. */
  predicate AbandonedOk(t: Tables) {
    forall key :: key in t.attempts && t.attempts[key].state.Abandoned? && t.attempts[key].transaction.Some? ==>
      t.attempts[key].transaction.value !in t.joins
  }

  /** Only the transaction ids in `seeded` can belong to an abandoned attempt and have a join row. */
  predicate AbandonedWithin(t: Tables, seeded: set<nat>) {
    forall key :: key in t.attempts && t.attempts[key].state.Abandoned? && t.attempts[key].transaction.Some? ==>
      t.attempts[key].transaction.value in t.joins ==> t.attempts[key].transaction.value in seeded
  }

  /** No abandoned attempt carries one of the transaction ids in `seeded`. */
  predicate NoneTakenOver(t: Tables, seeded: set<nat>) {
    forall key :: key in t.attempts && t.attempts[key].state.Abandoned? && t.attempts[key].transaction.Some? ==>
      t.attempts[key].transaction.value !in seeded
  }

  /** The transaction id whose join row a seeded commit inserts in this step. */
  function SeededBy(s: Storage, step: Step): set<nat> {
    if step.CommittingSeeded? && Next(s, step).tables.joins != s.tables.joins then {step.transaction} else {}
  }

  /** The transaction ids whose join rows seeded commits insert along the run. */
  function SeededIn(s: Storage, steps: seq<Step>): set<nat>
    decreases |steps|
  {
    if steps == [] then {} else SeededBy(s, steps[0]) + SeededIn(Next(s, steps[0]), steps[1..])
  }

  lemma EndKeepsAbandoned(s: Storage, h: Handle, expected: AttemptState, final: AttemptState, now: u64,
                          protector: Protector, seeded: set<nat>)
    requires RowsOk(s.tables) && AbandonedWithin(s.tables, seeded) && (expected.PendingApproval? || expected.Approved?)
    ensures AbandonedWithin(End(s, h, expected, final, now, protector).0.tables, seeded)
  {
    if HandleFits(s.tables, h, expected) {
      assert RowOk(s.tables, h.attempt);
    }
  }

  lemma CommitKeepsAbandoned(s: Storage, m: Membership, row: JoinRow, leaf: nat, now: u64, fault: PersistenceFault,
                             seeded: set<nat>)
    requires PairsOk(s.tables.attempts) && AbandonedWithin(s.tables, seeded)
    ensures AbandonedWithin(CommitAuthorized(s, m, row, leaf, now, fault).0.tables, seeded)
  {
    hide JoinClashes;
    var t := s.tables;
    var after := CommitAuthorized(s, m, row, leaf, now, fault).0.tables;
    if after != t {
      forall key | key in after.attempts && after.attempts[key].state.Abandoned? && after.attempts[key].transaction.Some?
                   && after.attempts[key].transaction.value in after.joins
        ensures after.attempts[key].transaction.value in seeded
      {
        assert PairOk(t.attempts, m.attempt, key);
      }
    }
  }

  lemma ShapesKeepAbandoned(s: Storage, step: Step, seeded: set<nat>)
    requires Coupled(s.tables) && AbandonedWithin(s.tables, seeded) && (step.Issuing? || step.Reserving?)
    ensures AbandonedWithin(Next(s, step).tables, seeded)
  {
    hide Coupled, AnyStuck, Next, Reserve, Clashes;
    if Next(s, step).tables != s.tables {
      if step.Issuing? {
        IssueShape(s, step);
      } else {
        ReserveShape(s, step);
      }
    }
  }

  lemma SeededKeepsAbandoned(s: Storage, step: Step, seeded: set<nat>)
    requires AbandonedWithin(s.tables, seeded) && step.CommittingSeeded?
    ensures AbandonedWithin(Next(s, step).tables, seeded + SeededBy(s, step))
  {
    hide JoinClashes;
    assert Next(s, step).tables.attempts == s.tables.attempts;
  }

  lemma NextKeepsAbandoned(s: Storage, step: Step, seeded: set<nat>)
    requires Coupled(s.tables) && AbandonedWithin(s.tables, seeded)
    ensures AbandonedWithin(Next(s, step).tables, seeded + SeededBy(s, step))
  {
    hide PairsOk, OpeningsOk, GenerationsOk, JoinsOk, RowsOk, End, CommitAuthorized, Issue, Reserve, JoinClashes;
    match step
    case Issuing(_, _, _, _, _) => ShapesKeepAbandoned(s, step, seeded);
    case Reserving(_, _, _, _) => ShapesKeepAbandoned(s, step, seeded);
    case Approving(h, now, protector) => EndKeepsAbandoned(s, h, PendingApproval, Abandoned, now, protector, seeded);
    case Beginning(h, transaction, now, protector) => EndKeepsAbandoned(s, h, Approved, Abandoned, now, protector, seeded);
    case AbandoningPending(h, now, protector) => EndKeepsAbandoned(s, h, PendingApproval, Abandoned, now, protector, seeded);
    case Declining(h, now, protector) => EndKeepsAbandoned(s, h, PendingApproval, Declined, now, protector, seeded);
    case AbandoningApproved(h, now, protector) => EndKeepsAbandoned(s, h, Approved, Abandoned, now, protector, seeded);
    case RecoveringPre(now, protector) => StaleHaveNoTransaction(s.tables);
    case CommittingAuthorized(m, row, leaf, now, fault) => CommitKeepsAbandoned(s, m, row, leaf, now, fault, seeded);
    case CommittingSeeded(_, _, _, _) => SeededKeepsAbandoned(s, step, seeded);
    case _ =>
  }

  lemma StaleHaveNoTransaction(t: Tables)
    requires RowsOk(t)
    ensures forall key :: key in Stale(t) ==> t.attempts[key].transaction.None?
  {
    forall key | key in Stale(t) ensures t.attempts[key].transaction.None? {
      assert RowOk(t, key);
    }
  }

  /**
   The property that reopening checks is not free: a seeded commit keeps it exactly when no abandoned
   attempt carries its transaction id.
   */
  lemma SeededCommitDecides(s: Storage, transaction: nat, row: JoinRow, now: u64, fault: PersistenceFault)
    requires AbandonedOk(s.tables) && CommitSeeded(s, transaction, row, now, fault).0 != s
    ensures AbandonedOk(CommitSeeded(s, transaction, row, now, fault).0.tables) <==> NoneTakenOver(s.tables, {transaction})
  {
    hide JoinClashes;
    var after := CommitSeeded(s, transaction, row, now, fault).0.tables;
    if key :| key in s.tables.attempts && s.tables.attempts[key].state.Abandoned?
              && s.tables.attempts[key].transaction == Some(transaction)
    {
      assert after.attempts[key].transaction.value in after.joins;
    }
  }

  lemma {:induction false} RunKeepsAbandoned(s: Storage, steps: seq<Step>, used: set<nat>, seeded: set<nat>)
    requires Coupled(s.tables) && AbandonedWithin(s.tables, seeded) && AllFresh(s, steps, used)
    ensures AbandonedWithin(Run(s, steps).tables, seeded + SeededIn(s, steps))
    decreases |steps|
  {
    hide Coupled, AbandonedWithin, Next, Fresh, SeededBy;
    if steps == [] {
      assert seeded + SeededIn(s, steps) == seeded;
    } else {
      NextKeepsCoupled(s, steps[0]);
      NextKeepsAbandoned(s, steps[0], seeded);
      var more := seeded + SeededBy(s, steps[0]);
      RunKeepsAbandoned(Next(s, steps[0]), steps[1..], used + Generations(steps[0]), more);
      assert more + SeededIn(Next(s, steps[0]), steps[1..]) == seeded + SeededIn(s, steps);
    }
  }

  /** A join row, once stored, is never changed or removed. */
  lemma {:induction false} JoinsStay(s: Storage, steps: seq<Step>, transaction: nat)
    requires transaction in s.tables.joins
    ensures transaction in Run(s, steps).tables.joins
    ensures Run(s, steps).tables.joins[transaction] == s.tables.joins[transaction]
    decreases |steps|
  {
    hide Next;
    if steps != [] {
      NextJoins(s, steps[0]);
      JoinsStay(Next(s, steps[0]), steps[1..], transaction);
    }
  }

  lemma {:induction false} SeededStay(s: Storage, steps: seq<Step>)
    ensures SeededIn(s, steps) <= Run(s, steps).tables.joins.Keys
    decreases |steps|
  {
    hide Next;
    if steps != [] {
      SeededStay(Next(s, steps[0]), steps[1..]);
      if SeededBy(s, steps[0]) != {} {
        NextJoins(s, steps[0]);
        JoinsStay(Next(s, steps[0]), steps[1..], steps[0].transaction);
      }
    }
  }

  // ---------- the handles still owed ----------

  /** Every owed handle names an attempt in the state the handle is for. */
  predicate LiveOk(s: Storage) {
    && (forall key :: key in s.livePre ==> key in Stale(s.tables))
    && (forall key :: key in s.liveMembership ==>
          key in s.tables.attempts && s.tables.attempts[key].state.OutcomeUnknown?)
  }

  lemma EndKeepsLive(s: Storage, h: Handle, expected: AttemptState, final: AttemptState, now: u64, protector: Protector)
    requires LiveOk(s) && (expected.PendingApproval? || expected.Approved?)
    ensures LiveOk(End(s, h, expected, final, now, protector).0)
  {
  }

  lemma ShapesKeepLive(s: Storage, step: Step)
    requires Coupled(s.tables) && LiveOk(s) && (step.Issuing? || step.Reserving?)
    ensures LiveOk(Next(s, step))
  {
    hide Coupled, Compact, Clashes, LiveKeys, KeysOf;
    CompactionDecided(s.tables, step.now);
  }

  lemma RecoverOutcomeKeepsLive(s: Storage, attempt: nat, transaction: nat, now: u64, protector: Protector)
    requires LiveOk(s)
    ensures LiveOk(RecoverOutcome(s, attempt, transaction, now, protector).0)
  {
  }

  lemma CommitKeepsLive(s: Storage, m: Membership, row: JoinRow, leaf: nat, now: u64, fault: PersistenceFault)
    requires LiveOk(s)
    ensures LiveOk(CommitAuthorized(s, m, row, leaf, now, fault).0)
  {
    hide JoinClashes;
  }

  lemma NextKeepsLive(s: Storage, step: Step)
    requires Coupled(s.tables) && LiveOk(s)
    ensures LiveOk(Next(s, step))
  {
    hide Coupled, End, CommitAuthorized, RecoverOutcome, Issue, Reserve, JoinClashes, TransactionTaken;
    match step
    case Issuing(_, _, _, _, _) => ShapesKeepLive(s, step);
    case Reserving(_, _, _, _) => ShapesKeepLive(s, step);
    case Approving(h, now, protector) => EndKeepsLive(s, h, PendingApproval, Abandoned, now, protector);
    case Beginning(h, transaction, now, protector) => EndKeepsLive(s, h, Approved, Abandoned, now, protector);
    case AbandoningPending(h, now, protector) => EndKeepsLive(s, h, PendingApproval, Abandoned, now, protector);
    case Declining(h, now, protector) => EndKeepsLive(s, h, PendingApproval, Declined, now, protector);
    case AbandoningApproved(h, now, protector) => EndKeepsLive(s, h, Approved, Abandoned, now, protector);
    case RecoveringOutcome(attempt, transaction, now, protector) =>
      RecoverOutcomeKeepsLive(s, attempt, transaction, now, protector);
    case CommittingAuthorized(m, row, leaf, now, fault) => CommitKeepsLive(s, m, row, leaf, now, fault);
    case _ =>
  }

  lemma {:induction false} RunKeepsLive(s: Storage, steps: seq<Step>, used: set<nat>)
    requires Coupled(s.tables) && LiveOk(s) && AllFresh(s, steps, used)
    ensures LiveOk(Run(s, steps))
    decreases |steps|
  {
    hide Coupled, LiveOk, Next, Fresh;
    if steps != [] {
      NextKeepsCoupled(s, steps[0]);
      NextKeepsLive(s, steps[0]);
      RunKeepsLive(Next(s, steps[0]), steps[1..], used + Generations(steps[0]));
    }
  }

  /** Restart recovery abandons every stale attempt or changes nothing, and refuses exactly while a handle is owed. */
  lemma RecoverPreDecided(s: Storage, now: u64, protector: Protector)
    requires Coupled(s.tables) && LiveOk(s) && now <= I64_MAX
    ensures var (after, answer) := RecoverPre(s, now, protector);
            && (answer.Ok? <==> s.livePre == [])
            && (answer.Err? ==> after == s && answer.error == Conflict)
            && (answer.Ok? ==>
                  && Stale(after.tables) == {} && answer.value == |Stale(s.tables)|
                  && Coupled(after.tables)
                  && RecoverPre(after, now, protector) == (after, Ok(0)))
  {
    hide Coupled;
    if s.livePre != [] {
      assert s.livePre[0] in Stale(s.tables);
    } else {
      var after := RecoverPre(s, now, protector).0;
      AbandonAllIsCoupled(s.tables, Stale(s.tables), now, protector);
      assert Stale(after.tables) == {};
      assert AbandonAll(after.tables, {}, now, protector) == after.tables;
    }
  }

  // ---------- recovering the same outcome again ----------

  /** Recovering again right away gives the same answer and changes nothing, at any time and whatever the protector says. */
  lemma RecoveryIsIdempotent(s: Storage, attempt: nat, transaction: nat, now: u64, protector: Protector,
                             later: u64, other: Protector)
    requires RecoverOutcome(s, attempt, transaction, now, protector).1.Ok? && later <= I64_MAX
    ensures var (after, answer) := RecoverOutcome(s, attempt, transaction, now, protector);
            RecoverOutcome(after, attempt, transaction, later, other) == (after, answer)
  {
  }

  /** While its generation is open, the attempt's row is exactly `a` and no membership handle is owed for it. */
  predicate Settled(s: Storage, key: nat, a: Attempt) {
    GenerationOpen(s.tables, a.request.generation) ==>
      key in s.tables.attempts && s.tables.attempts[key] == a && key !in s.liveMembership
  }

  predicate Resolved(a: Attempt) {
    (a.state.Committed? || a.state.Abandoned?) && a.transaction.Some?
  }

  /** Only beginning the membership of an Approved attempt makes a membership handle owed. */
  lemma OwedOnlyByBeginning(s: Storage, step: Step, key: nat)
    requires key !in s.liveMembership && key in s.tables.attempts && !s.tables.attempts[key].state.Approved?
    ensures key !in Next(s, step).liveMembership
  {
    hide Compact, Clashes, JoinClashes, TransactionTaken, LiveKeys, KeysOf, Released;
  }

  lemma StepSettled(s: Storage, step: Step, used: set<nat>, key: nat, a: Attempt)
    requires Coupled(s.tables) && Generations(step) !! used && a.request.generation in used
    requires Resolved(a) && Settled(s, key, a)
    ensures Settled(Next(s, step), key, a)
  {
    hide Coupled, Next;
    StepAlive(s, step, used, key, a);
    if GenerationOpen(Next(s, step).tables, a.request.generation) {
      if !GenerationOpen(s.tables, a.request.generation) {
        ClosedStaysClosed(s, step, used, a.request.generation);
      } else {
        OwedOnlyByBeginning(s, step, key);
      }
    }
  }

  /** A step gives an abandoned attempt's transaction id a join row exactly when it is a seeded commit of that id. */
  lemma StepTakesOver(s: Storage, step: Step, key: nat)
    requires Coupled(s.tables) && key in s.tables.attempts && s.tables.attempts[key].state.Abandoned?
    requires s.tables.attempts[key].transaction.Some? && s.tables.attempts[key].transaction.value !in s.tables.joins
    ensures var transaction := s.tables.attempts[key].transaction.value;
            transaction in Next(s, step).tables.joins <==> transaction in SeededBy(s, step)
  {
    hide PairsOk, OpeningsOk, GenerationsOk, JoinsOk, RowsOk, Next;
    NextJoins(s, step);
    if step.CommittingAuthorized? {
      OthersCommitElsewhere(s, step, key);
    }
  }

  /** An authorized commit stores its row under the id of an OutcomeUnknown attempt, so under no settled attempt's id. */
  lemma OthersCommitElsewhere(s: Storage, step: Step, key: nat)
    requires Coupled(s.tables) && key in s.tables.attempts && !s.tables.attempts[key].state.OutcomeUnknown?
    requires s.tables.attempts[key].transaction.Some? && step.CommittingAuthorized?
    requires s.tables.attempts[key].transaction.value !in s.tables.joins
    ensures s.tables.attempts[key].transaction.value !in Next(s, step).tables.joins
  {
    hide OpeningsOk, GenerationsOk, JoinsOk, RowsOk, JoinClashes;
    assert PairOk(s.tables.attempts, key, step.m.attempt);
  }

  /**
   Along any run, a resolved attempt stays as it is while its generation is open; an abandoned one's transaction id
   gets a join row exactly when a seeded commit of the run inserts one under that id.
   */
  lemma {:induction false} ResolvedForGood(s: Storage, steps: seq<Step>, used: set<nat>, key: nat, a: Attempt)
    requires Coupled(s.tables) && AllFresh(s, steps, used) && a.request.generation in used
    requires Resolved(a) && Settled(s, key, a) && (a.state.Abandoned? ==> a.transaction.value !in s.tables.joins)
    requires GenerationOpen(Run(s, steps).tables, a.request.generation)
    ensures Settled(Run(s, steps), key, a)
    ensures a.state.Abandoned? ==>
              (a.transaction.value in Run(s, steps).tables.joins <==> a.transaction.value in SeededIn(s, steps))
    decreases |steps|
  {
    hide Coupled, Next, Fresh, SeededBy, Settled;
    if steps != [] {
      var next := Next(s, steps[0]);
      var rest := used + Generations(steps[0]);
      StepSettled(s, steps[0], used, key, a);
      NextKeepsCoupled(s, steps[0]);
      OpenFromTheStart(s, steps, used, a.request.generation);
      SettledRow(s, key, a);
      if a.state.Abandoned? {
        StepTakesOver(s, steps[0], key);
        if a.transaction.value in next.tables.joins {
          JoinsStay(next, steps[1..], a.transaction.value);
          RunSettles(next, steps[1..], rest, key, a);
        } else {
          ResolvedForGood(next, steps[1..], rest, key, a);
        }
      } else {
        ResolvedForGood(next, steps[1..], rest, key, a);
      }
    }
  }

  lemma SettledRow(s: Storage, key: nat, a: Attempt)
    requires Settled(s, key, a) && GenerationOpen(s.tables, a.request.generation)
    ensures key in s.tables.attempts && s.tables.attempts[key] == a && key !in s.liveMembership
  {
  }

  lemma {:induction false} RunSettles(s: Storage, steps: seq<Step>, used: set<nat>, key: nat, a: Attempt)
    requires Coupled(s.tables) && AllFresh(s, steps, used) && a.request.generation in used
    requires Resolved(a) && Settled(s, key, a)
    ensures Settled(Run(s, steps), key, a)
    decreases |steps|
  {
    hide Coupled, Next, Fresh, Settled;
    if steps != [] {
      StepSettled(s, steps[0], used, key, a);
      NextKeepsCoupled(s, steps[0]);
      RunSettles(Next(s, steps[0]), steps[1..], used + Generations(steps[0]), key, a);
    }
  }

  /**
   A recovered outcome is answered the same way in every later state with its generation open, exactly unless it was
   Abandoned and a later seeded commit inserted a join row under its transaction id.
   */
  lemma RecoveryRepeats(s: Storage, attempt: nat, transaction: nat, now: u64, protector: Protector,
                        steps: seq<Step>, used: set<nat>, later: u64, other: Protector)
    requires Coupled(s.tables) && RecoverOutcome(s, attempt, transaction, now, protector).1.Ok?
    requires s.tables.attempts[attempt].request.generation in used && later <= I64_MAX
    requires var after := RecoverOutcome(s, attempt, transaction, now, protector).0;
             && AllFresh(after, steps, used)
             && GenerationOpen(Run(after, steps).tables, s.tables.attempts[attempt].request.generation)
    ensures var (after, answer) := RecoverOutcome(s, attempt, transaction, now, protector);
            var last := Run(after, steps);
            RecoverOutcome(last, attempt, transaction, later, other) == (last, answer)
            <==> (answer == Ok(Abandoned) ==> transaction !in SeededIn(after, steps))
  {
    var (after, answer) := RecoverOutcome(s, attempt, transaction, now, protector);
    RecoveredState(s, attempt, transaction, now, protector);
    RecoverOutcomeKeeps(s, attempt, transaction, now, protector);
    StillRecovered(after, attempt, transaction, answer.value, steps, used, later, other);
  }

  lemma RecoveredState(s: Storage, attempt: nat, transaction: nat, now: u64, protector: Protector)
    requires RecoverOutcome(s, attempt, transaction, now, protector).1.Ok?
    ensures var (after, answer) := RecoverOutcome(s, attempt, transaction, now, protector);
            && attempt in s.tables.attempts && attempt in after.tables.attempts
            && attempt != 0 && transaction != 0 && attempt !in after.liveMembership
            && (answer.value.Committed? || answer.value.Abandoned?)
            && (answer.value.Abandoned? ==> transaction !in after.tables.joins)
            && after.tables.attempts[attempt].request == s.tables.attempts[attempt].request
            && after.tables.attempts[attempt].state == answer.value
            && after.tables.attempts[attempt].transaction == Some(transaction)
  {
  }

  lemma StillRecovered(s: Storage, attempt: nat, transaction: nat, state: AttemptState,
                       steps: seq<Step>, used: set<nat>, later: u64, other: Protector)
    requires Coupled(s.tables) && AllFresh(s, steps, used) && later <= I64_MAX
    requires attempt != 0 && transaction != 0 && attempt in s.tables.attempts && attempt !in s.liveMembership
    requires s.tables.attempts[attempt].request.generation in used
    requires s.tables.attempts[attempt].transaction == Some(transaction) && s.tables.attempts[attempt].state == state
    requires state.Committed? || (state.Abandoned? && transaction !in s.tables.joins)
    requires GenerationOpen(Run(s, steps).tables, s.tables.attempts[attempt].request.generation)
    ensures RecoverOutcome(Run(s, steps), attempt, transaction, later, other) == (Run(s, steps), Ok(state))
            <==> (state.Abandoned? ==> transaction !in SeededIn(s, steps))
  {
    hide PairsOk, OpeningsOk, GenerationsOk, JoinsOk, Run, AllFresh, SeededIn, GenerationOpen;
    ResolvedForGood(s, steps, used, attempt, s.tables.attempts[attempt]);
    RunKeepsCoupled(s, steps, used);
    assert RowOk(Run(s, steps).tables, attempt);
  }

  // ---------- reserving and giving back ----------

  lemma {:induction false} WithoutNew(keys: seq<nat>, key: nat)
    requires key !in keys
    ensures Without(keys + [key], key) == keys
  {
    if keys == [] {
      assert keys + [key] == [key] && [key][1..] == [];
    } else {
      assert (keys + [key])[1..] == keys[1..] + [key];
      WithoutNew(keys[1..], key);
    }
  }

  /**
   Abandoning a reservation in time gives the opening back exactly as it was, so that another request can be
   reserved; abandoning it too late, or when it cannot be restored, makes it Unusable with its key erased.
   */
  lemma AbandonUndoesReserve(s: Storage, r: Request, now: u64, protector: Protector, drawn: Option<nat>,
                             later: u64, other: Protector)
    requires Coupled(s.tables) && LiveOk(s) && later <= I64_MAX
    requires Reserve(s, r, now, protector, drawn).1.Ok?
    ensures var (reserved, handle) := Reserve(s, r, now, protector, drawn);
            var (after, answer) := End(reserved, handle.value, PendingApproval, Abandoned, later, other);
            var kept := Kept(s.tables, now).openings;
            && answer.Ok? && after.livePre == s.livePre
            && r.invitationId in kept
            && if later < kept[r.invitationId].expiresAt && other(r.generation) == Restored(true)
               then after.tables.openings == kept
               else after.tables.openings == kept[r.invitationId := Erase(kept[r.invitationId], Unusable)]
  {
    hide Coupled, Compact, Clashes, LiveKeys, KeysOf;
    CompactionDecided(s.tables, now);
    LiveAreKept(s, now);
    var t := Kept(s.tables, now);
    WithoutNew(s.livePre, drawn.value);
    var o := t.openings[r.invitationId];
    assert t.openings[r.invitationId := o] == t.openings;
  }

  lemma LiveAreKept(s: Storage, now: u64)
    requires LiveOk(s)
    ensures forall key :: key in s.livePre ==> key in Kept(s.tables, now).attempts
  {
  }

  /** A handle ends only its own attempt, in the expected state, and frees only that attempt's opening. */
  lemma EndTouchesOnlyItsOwn(s: Storage, h: Handle, expected: AttemptState, final: AttemptState, now: u64,
                             protector: Protector, other: nat)
    requires End(s, h, expected, final, now, protector).1.Ok?
    ensures var t := s.tables;
            var after := End(s, h, expected, final, now, protector).0.tables;
            && h.scope == s.scope && h.attempt in t.attempts && t.attempts[h.attempt].state == expected
            && t.attempts[h.attempt].request.invitationId == h.invitationId
            && t.attempts[h.attempt].request.generation == h.generation
            && HasOpening(t, h.invitationId, h.generation) && t.openings[h.invitationId].state.Reserved?
            && after.attempts == t.attempts[h.attempt := t.attempts[h.attempt].(state := final)]
            && (other != h.invitationId && other in t.openings ==>
                  other in after.openings && after.openings[other] == t.openings[other])
            && !after.openings[h.invitationId].state.Reserved?
            && after.joins == t.joins && after.reservations == t.reservations
  {
  }

  // ---------- what a membership commit needs and does ----------

  /** An authorized commit takes effect exactly for the attempt, transaction, request, leaf and time it was authorized for. */
  lemma AuthorizedCommitIsExact(s: Storage, m: Membership, row: JoinRow, leaf: nat, now: u64, fault: PersistenceFault)
    requires Coupled(s.tables)
    ensures var t := s.tables;
            var after := CommitAuthorized(s, m, row, leaf, now, fault).0.tables;
            (m.transaction in after.joins && m.transaction !in t.joins) <==>
              && m.scope == s.scope && now <= I64_MAX && !fault.BeforeCommit?
              && m.attempt in t.attempts && t.attempts[m.attempt].state.OutcomeUnknown?
              && t.attempts[m.attempt].transaction == Some(m.transaction)
              && var r := t.attempts[m.attempt].request;
                 && row.invitationId == r.invitationId && row.generation == r.generation
                 && row.requestId == r.requestId && row.fingerprint == r.fingerprint && leaf == r.leaf
                 && now < r.expiresAt && now < r.invitationExpiresAt
                 && row.invitationId !in t.reservations && !JoinClashes(t, m.transaction, row)
  {
    hide PairsOk, OpeningsOk, GenerationsOk, JoinsOk;
    if m.attempt in s.tables.attempts {
      assert RowOk(s.tables, m.attempt);
    }
  }

  predicate JoinPair(joins: map<nat, JoinRow>, u: nat, v: nat) {
    u in joins && v in joins && u != v ==>
      joins[u].invitationId != joins[v].invitationId && joins[u].requestId != joins[v].requestId
  }

  /** No invitation and no request was ever joined twice. */
  ghost predicate JoinsDistinct(joins: map<nat, JoinRow>) {
    forall u, v :: JoinPair(joins, u, v)
  }

  lemma AddJoin(t: Tables, transaction: nat, row: JoinRow)
    requires JoinsDistinct(t.joins) && !JoinClashes(t, transaction, row)
    ensures JoinsDistinct(t.joins[transaction := row])
  {
    var after := t.joins[transaction := row];
    forall u, v ensures JoinPair(after, u, v) {
      assert JoinPair(t.joins, u, v);
    }
  }

  lemma NextJoins(s: Storage, step: Step)
    ensures var joins := Next(s, step).tables.joins;
            || joins == s.tables.joins
            || (step.CommittingAuthorized? && !JoinClashes(s.tables, step.m.transaction, step.row)
                && joins == s.tables.joins[step.m.transaction := step.row])
            || (step.CommittingSeeded? && !JoinClashes(s.tables, step.transaction, step.row)
                && joins == s.tables.joins[step.transaction := step.row])
  {
    hide JoinClashes, Compact, Clashes, TransactionTaken, LiveKeys, KeysOf;
    if step.Issuing? || step.Reserving? {
      CompactKeepsJoins(s.tables, step.now);
    }
  }

  lemma CompactKeepsJoins(t: Tables, now: u64)
    ensures Compact(t, now).Some? ==> Compact(t, now).value.joins == t.joins
  {
  }

  /** Over any run an invitation is joined by at most one transaction, and so is a request. */
  lemma {:induction false} JoinedAtMostOnce(s: Storage, steps: seq<Step>)
    requires JoinsDistinct(s.tables.joins)
    ensures JoinsDistinct(Run(s, steps).tables.joins)
    decreases |steps|
  {
    hide Next, JoinsDistinct, JoinClashes;
    if steps != [] {
      NextJoins(s, steps[0]);
      if steps[0].CommittingAuthorized? && !JoinClashes(s.tables, steps[0].m.transaction, steps[0].row) {
        AddJoin(s.tables, steps[0].m.transaction, steps[0].row);
      }
      if steps[0].CommittingSeeded? && !JoinClashes(s.tables, steps[0].transaction, steps[0].row) {
        AddJoin(s.tables, steps[0].transaction, steps[0].row);
      }
      JoinedAtMostOnce(Next(s, steps[0]), steps[1..]);
    }
  }

  // ---------- the bounds ----------

  predicate CountsOk(p: Policy, t: Tables) {
    && |t.openings| <= p.liveInvitations
    && |LiveKeys(t)| <= p.retainedAttempts
  }

  ghost predicate GenerationCountsOk(p: Policy, t: Tables) {
    forall id, generation :: |KeysOf(t, id, generation)| <= p.retainedAttempts
  }

  lemma {:induction false} SubsetSize<T>(a: set<T>, b: set<T>)
    requires a <= b
    ensures |a| <= |b|
    decreases |a|
  {
    if a != {} {
      var x :| x in a;
      SubsetSize(a - {x}, b - {x});
    }
  }

  /** Fewer rows of the same kind keep every bound. */
  lemma CountsShrink(p: Policy, t: Tables, after: Tables)
    requires CountsOk(p, t) && GenerationCountsOk(p, t)
    requires after.openings.Keys <= t.openings.Keys
    requires forall key :: key in after.attempts ==> key in t.attempts && Moved(t.attempts[key], after.attempts[key])
    ensures CountsOk(p, after) && GenerationCountsOk(p, after)
  {
    SubsetSize(after.openings.Keys, t.openings.Keys);
    assert LiveKeys(after) <= LiveKeys(t);
    SubsetSize(LiveKeys(after), LiveKeys(t));
    forall id, generation ensures |KeysOf(after, id, generation)| <= p.retainedAttempts {
      assert KeysOf(after, id, generation) <= KeysOf(t, id, generation);
      SubsetSize(KeysOf(after, id, generation), KeysOf(t, id, generation));
    }
  }

  lemma CountsInsert(p: Policy, t: Tables, key: nat, r: Request)
    requires CountsOk(p, t) && GenerationCountsOk(p, t) && key !in t.attempts && r.invitationId in t.openings
    requires |LiveKeys(t)| < p.retainedAttempts && |KeysOf(t, r.invitationId, r.generation)| < p.retainedAttempts
    ensures CountsOk(p, WithReserved(t, key, r)) && GenerationCountsOk(p, WithReserved(t, key, r))
  {
    hide LiveKeys, KeysOf;
    var after := WithReserved(t, key, r);
    assert after.openings.Keys == t.openings.Keys;
    SubsetSize(after.openings.Keys, t.openings.Keys);
    var a := Attempt(r, PendingApproval, None);
    InsertLive(t, after, key, a);
    forall id, generation ensures |KeysOf(after, id, generation)| <= p.retainedAttempts {
      InsertOwned(t, after, key, a, id, generation);
    }
  }

  lemma InsertLive(t: Tables, after: Tables, key: nat, a: Attempt)
    requires key !in t.attempts && after.attempts == t.attempts[key := a] && Live(a.state)
    ensures |LiveKeys(after)| == |LiveKeys(t)| + 1
  {
    hide Live;
    assert LiveKeys(after) == LiveKeys(t) + {key};
  }

  lemma InsertOwned(t: Tables, after: Tables, key: nat, a: Attempt, id: nat, generation: nat)
    requires key !in t.attempts && after.attempts == t.attempts[key := a]
    ensures |KeysOf(after, id, generation)|
            == |KeysOf(t, id, generation)|
               + (if id == a.request.invitationId && generation == a.request.generation then 1 else 0)
  {
    InsertedKeys(t, after, key, a, id, generation);
    assert key !in KeysOf(t, id, generation);
  }

  lemma InsertedKeys(t: Tables, after: Tables, key: nat, a: Attempt, id: nat, generation: nat)
    requires key !in t.attempts && after.attempts == t.attempts[key := a]
    ensures KeysOf(after, id, generation)
            == KeysOf(t, id, generation)
               + (if id == a.request.invitationId && generation == a.request.generation then {key} else {})
  {
  }

  lemma IssueKeepsCounts(s: Storage, step: Step)
    requires Coupled(s.tables) && CountsOk(s.policy, s.tables) && GenerationCountsOk(s.policy, s.tables) && step.Issuing?
    ensures CountsOk(s.policy, Next(s, step).tables) && GenerationCountsOk(s.policy, Next(s, step).tables)
  {
    hide Coupled, Compact, GenerationCountsOk, CountsOk;
    var kept := Kept(s.tables, step.now);
    CompactionDecided(s.tables, step.now);
    CountsShrink(s.policy, s.tables, kept);
    if Next(s, step).tables != s.tables {
      CountsOpen(s.policy, kept, step.id, Opening(step.generation, step.expiresAt, Available, false));
    }
  }

  lemma CountsOpen(p: Policy, t: Tables, id: nat, o: Opening)
    requires CountsOk(p, t) && GenerationCountsOk(p, t) && |t.openings| < p.liveInvitations && id !in t.openings
    ensures CountsOk(p, SetOpening(t, id, o)) && GenerationCountsOk(p, SetOpening(t, id, o))
  {
    var after := SetOpening(t, id, o);
    assert after.openings.Keys == t.openings.Keys + {id};
    assert LiveKeys(after) == LiveKeys(t);
    forall i, generation ensures |KeysOf(after, i, generation)| <= p.retainedAttempts {
      assert KeysOf(after, i, generation) == KeysOf(t, i, generation);
    }
  }

  lemma ReserveKeepsCounts(s: Storage, step: Step)
    requires Coupled(s.tables) && CountsOk(s.policy, s.tables) && GenerationCountsOk(s.policy, s.tables) && step.Reserving?
    ensures CountsOk(s.policy, Next(s, step).tables) && GenerationCountsOk(s.policy, Next(s, step).tables)
  {
    hide Coupled, Compact, GenerationCountsOk, CountsOk, Clashes;
    var kept := Kept(s.tables, step.now);
    CompactionDecided(s.tables, step.now);
    CountsShrink(s.policy, s.tables, kept);
    var after := Next(s, step).tables;
    if after != s.tables {
      if Reserve(s, step.r, step.now, step.protector, step.drawn).1.Ok? {
        CountsInsert(s.policy, kept, step.drawn.value, step.r);
        assert after == WithReserved(kept, step.drawn.value, step.r);
      } else {
        CountsShrink(s.policy, kept, after);
      }
    }
  }

  lemma NextKeepsCounts(s: Storage, step: Step)
    requires Coupled(s.tables) && CountsOk(s.policy, s.tables) && GenerationCountsOk(s.policy, s.tables)
    ensures Next(s, step).policy == s.policy
    ensures CountsOk(s.policy, Next(s, step).tables) && GenerationCountsOk(s.policy, Next(s, step).tables)
  {
    NextKeepsPolicy(s, step);
    hide Coupled, Next, CountsOk, GenerationCountsOk;
    if step.Issuing? {
      IssueKeepsCounts(s, step);
    } else if step.Reserving? {
      ReserveKeepsCounts(s, step);
    } else {
      OthersPersist(s, step);
      CountsShrink(s.policy, s.tables, Next(s, step).tables);
    }
  }

  lemma NextKeepsPolicy(s: Storage, step: Step)
    ensures Next(s, step).policy == s.policy
  {
    hide Compact, Clashes, JoinClashes, TransactionTaken, LiveKeys, KeysOf;
  }

  // ---------- the checks of reopening ----------

  /** The row checks a store makes on its tables when it is opened. */
  ghost predicate Validates(p: Policy, t: Tables) {
    && (forall id :: id in t.openings ==>
          var o := t.openings[id];
          && id != 0 && o.generation != 0
          && (o.state.Available? || o.state.Reserved? ==> !o.erased)
          && (o.state.Consumed? || o.state.Unusable? ==> o.erased))
    && |t.openings| <= p.liveInvitations
    && |t.attempts| <= p.liveInvitations * p.retainedAttempts
    && |LiveKeys(t)| <= p.retainedAttempts
    && (forall id, generation :: |KeysOf(t, id, generation)| <= p.retainedAttempts)
    && (forall key :: key in t.attempts ==>
          var a := t.attempts[key];
          && key != 0 && a.request.Valid() && a.transaction != Some(0)
          && HasOpening(t, a.request.invitationId, a.request.generation)
          && t.openings[a.request.invitationId].expiresAt == a.request.invitationExpiresAt)
    && (forall id :: id in t.openings ==>
          if t.openings[id].state.Reserved? then exists key :: OnlyLive(t, id, key)
          else forall key :: !LiveFor(t, id, key))
    && (forall key :: key in t.attempts && t.attempts[key].state.Committed? ==>
          && HasOpening(t, t.attempts[key].request.invitationId, t.attempts[key].request.generation)
          && t.openings[t.attempts[key].request.invitationId].state.Consumed?
          && ResultStored(t, t.attempts[key]))
    && (forall key :: key in t.attempts && t.attempts[key].state.Abandoned? && t.attempts[key].transaction.Some? ==>
          t.attempts[key].transaction.value !in t.joins)
    && (forall u :: u in t.joins && HasOpening(t, t.joins[u].invitationId, t.joins[u].generation) ==>
          exists key :: CommittedAs(t, u, key) && Agrees(t.joins[u], t.attempts[key].request))
    && (forall id :: id in t.openings && t.openings[id].state.Consumed? ==> exists key :: CommittedFor(t, id, key))
  }

  ghost predicate OnlyLive(t: Tables, id: nat, key: nat) {
    LiveFor(t, id, key) && forall other :: LiveFor(t, id, other) ==> other == key
  }

  function KeysAmong(t: Tables, ids: set<nat>): set<nat> {
    set key | key in t.attempts && t.attempts[key].request.invitationId in ids
  }

  lemma {:induction false} TotalBound(p: Policy, t: Tables, ids: set<nat>)
    requires RowsOk(t) && GenerationCountsOk(p, t) && ids <= t.openings.Keys
    ensures |KeysAmong(t, ids)| <= |ids| * p.retainedAttempts
    decreases |ids|
  {
    if ids == {} {
      assert KeysAmong(t, ids) == {};
    } else {
      var id :| id in ids;
      var rest := ids - {id};
      TotalBound(p, t, rest);
      var own := KeysOf(t, id, t.openings[id].generation);
      forall key | key in KeysAmong(t, ids) ensures key in KeysAmong(t, rest) + own {
        assert RowOk(t, key);
      }
      SubsetSize(KeysAmong(t, ids), KeysAmong(t, rest) + own);
      assert |KeysAmong(t, rest) + own| <= |KeysAmong(t, rest)| + |own|;
      assert |ids| * p.retainedAttempts == |rest| * p.retainedAttempts + p.retainedAttempts;
    }
  }

  lemma TotalWithinPolicy(p: Policy, t: Tables)
    requires RowsOk(t) && CountsOk(p, t) && GenerationCountsOk(p, t)
    ensures |t.attempts| <= p.liveInvitations * p.retainedAttempts
  {
    TotalBound(p, t, t.openings.Keys);
    forall key | key in t.attempts ensures key in KeysAmong(t, t.openings.Keys) {
      assert RowOk(t, key);
    }
    assert t.attempts.Keys == KeysAmong(t, t.openings.Keys);
    assert |t.openings.Keys| * p.retainedAttempts <= p.liveInvitations * p.retainedAttempts;
  }

  /** Of the checks, only the one about abandoned attempts is not implied by the invariants of the tables. */
  lemma CoupledValidates(p: Policy, t: Tables)
    requires Coupled(t) && CountsOk(p, t) && GenerationCountsOk(p, t)
    ensures Validates(p, t) <==> AbandonedOk(t)
  {
    hide PairsOk, GenerationsOk;
    TotalWithinPolicy(p, t);
    forall key | key in t.attempts ensures RowOk(t, key) {
    }
    forall id | id in t.openings
      ensures if t.openings[id].state.Reserved? then exists key :: OnlyLive(t, id, key)
              else forall key :: !LiveFor(t, id, key)
    {
      ReservedMeansOneLive(t, id);
      if t.openings[id].state.Reserved? {
        var key :| LiveFor(t, id, key);
        assert OnlyLive(t, id, key);
      }
    }
    forall id | id in t.openings ensures OpeningOk(t, id) {
    }
    forall u | u in t.joins && HasOpening(t, t.joins[u].invitationId, t.joins[u].generation)
      ensures exists key :: CommittedAs(t, u, key) && Agrees(t.joins[u], t.attempts[key].request)
    {
      assert JoinOk(t, u);
      var key :| CommittedAs(t, u, key);
      assert RowOk(t, key);
    }
  }

  lemma {:induction false} RunKeepsCounts(s: Storage, steps: seq<Step>, used: set<nat>)
    requires Coupled(s.tables) && CountsOk(s.policy, s.tables)
    requires GenerationCountsOk(s.policy, s.tables) && AllFresh(s, steps, used)
    ensures CountsOk(s.policy, Run(s, steps).tables) && GenerationCountsOk(s.policy, Run(s, steps).tables)
    decreases |steps|
  {
    hide Coupled, CountsOk, GenerationCountsOk, Next, Fresh;
    if steps != [] {
      NextKeepsCoupled(s, steps[0]);
      NextKeepsCounts(s, steps[0]);
      RunKeepsCounts(Next(s, steps[0]), steps[1..], used + Generations(steps[0]));
    }
  }

  /**
   A state a store can reach passes the checks made when it is reopened exactly when no abandoned attempt in it carries
   a transaction id under which a seeded commit of the run inserted a join row.
   */
  lemma ReachableTablesReopen(policy: Policy, scope: nat, steps: seq<Step>)
    requires AllFresh(Open(policy, scope), steps, {})
    ensures var s := Open(policy, scope);
            Validates(policy, Run(s, steps).tables) <==> NoneTakenOver(Run(s, steps).tables, SeededIn(s, steps))
  {
    hide Validates, Run, AllFresh, SeededIn;
    var s := Open(policy, scope);
    assert LiveKeys(s.tables) == {};
    forall id, generation ensures |KeysOf(s.tables, id, generation)| <= policy.retainedAttempts {
      assert KeysOf(s.tables, id, generation) == {};
    }
    RunKeepsCoupled(s, steps, {});
    RunKeepsCounts(s, steps, {});
    CoupledValidates(policy, Run(s, steps).tables);
    RunKeepsAbandoned(s, steps, {}, {});
    SeededStay(s, steps);
  }
}
