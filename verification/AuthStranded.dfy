/**
 Attempts whose outcome can never be recovered: a join row of another invitation stands under their transaction id.
 The code lets a seeded commit, or a membership begun with an id already joined, create one.
 */
module AuthStranded {
  import opened Common
  import opened AuthTables
  import opened Authorization
  import opened AuthInvariant
  import opened AuthSteps
  import opened AuthLaws
  import opened AuthHistory
  import opened AuthRecovery

  /** The attempt's outcome is unknown and its transaction id has a join row. */
  predicate Stranded(t: Tables, key: nat) {
    && key in t.attempts && t.attempts[key].state.OutcomeUnknown?
    && t.attempts[key].transaction.Some? && t.attempts[key].transaction.value in t.joins
  }

  /** Recovery of an unknown outcome abandons the attempt, or is refused with Conflict exactly when it is stranded. */
  lemma RecoveryRefusedIffStranded(s: Storage, key: nat, now: u64, protector: Protector)
    requires Coupled(s.tables) && key in s.tables.attempts && s.tables.attempts[key].state.OutcomeUnknown?
    requires key !in s.liveMembership && now <= I64_MAX
    ensures s.tables.attempts[key].transaction.Some?
    ensures var answer := RecoverOutcome(s, key, s.tables.attempts[key].transaction.value, now, protector).1;
            answer == if Stranded(s.tables, key) then Err(Conflict) else Ok(Abandoned)
  {
    hide PairsOk, OpeningsOk, GenerationsOk, JoinsOk;
    assert RowOk(s.tables, key);
    UnknownHasNoJoin(s.tables, key);
    OutcomeFollowsJoinRow(s, key, s.tables.attempts[key].transaction.value, now, protector);
  }

  /** No recovery of a stranded attempt takes effect, whatever id, time and protector it is tried with. */
  lemma StrandedRefusesRecovery(s: Storage, key: nat, transaction: nat, now: u64, protector: Protector)
    requires Coupled(s.tables) && Stranded(s.tables, key)
    ensures RecoverOutcome(s, key, transaction, now, protector).0 == s
    ensures RecoverOutcome(s, key, transaction, now, protector).1.Err?
  {
    hide PairsOk, OpeningsOk, GenerationsOk, JoinsOk, RowsOk;
    UnknownHasNoJoin(s.tables, key);
  }

  lemma StrandedRowStays(s: Storage, step: Step, key: nat)
    requires Coupled(s.tables) && Stranded(s.tables, key)
    ensures key in Next(s, step).tables.attempts && Next(s, step).tables.attempts[key] == s.tables.attempts[key]
  {
    hide PairsOk, OpeningsOk, GenerationsOk, JoinsOk, RowsOk, RecoverOutcome, Issue, Reserve, AnyStuck;
    hide TransactionTaken, Released, LiveKeys, KeysOf, Clashes, Agrees, HasOpening;
    match step
    case Issuing(_, _, _, _, _) => ShapesKeepLiveRow(s, step, key);
    case Reserving(_, _, _, _) => ShapesKeepLiveRow(s, step, key);
    case RecoveringOutcome(attempt, transaction, now, protector) =>
      if attempt == key {
        StrandedRefusesRecovery(s, key, transaction, now, protector);
      } else {
        RecoveryTouchesOne(s, attempt, transaction, now, protector, key);
      }
    case _ =>
  }

  lemma ShapesKeepLiveRow(s: Storage, step: Step, key: nat)
    requires Coupled(s.tables) && (step.Issuing? || step.Reserving?)
    requires key in s.tables.attempts && Live(s.tables.attempts[key].state)
    ensures key in Next(s, step).tables.attempts && Next(s, step).tables.attempts[key] == s.tables.attempts[key]
  {
    hide Coupled, Next, Reserve, AnyStuck, Clashes;
    if Next(s, step).tables != s.tables {
      if step.Issuing? {
        IssueShape(s, step);
      } else {
        ReserveShape(s, step);
      }
    }
  }

  lemma RecoveryTouchesOne(s: Storage, attempt: nat, transaction: nat, now: u64, protector: Protector, key: nat)
    requires key in s.tables.attempts && key != attempt
    ensures var after := RecoverOutcome(s, attempt, transaction, now, protector).0.tables;
            key in after.attempts && after.attempts[key] == s.tables.attempts[key]
  {
  }

  /** A stranded attempt is stranded in every later state, with the same row, and no recovery of it ever takes effect. */
  lemma {:induction false} StrandedForGood(s: Storage, steps: seq<Step>, used: set<nat>, key: nat)
    requires Coupled(s.tables) && Stranded(s.tables, key) && AllFresh(s, steps, used)
    ensures var last := Run(s, steps);
            && Stranded(last.tables, key) && last.tables.attempts[key] == s.tables.attempts[key]
            && forall transaction: nat, now: u64, protector: Protector ::
                 && RecoverOutcome(last, key, transaction, now, protector).0 == last
                 && RecoverOutcome(last, key, transaction, now, protector).1.Err?
    decreases |steps|
  {
    hide Coupled, Next, Fresh, RecoverOutcome;
    if steps == [] {
      forall transaction: nat, now: u64, protector: Protector
        ensures RecoverOutcome(s, key, transaction, now, protector).0 == s
        ensures RecoverOutcome(s, key, transaction, now, protector).1.Err?
      {
        StrandedRefusesRecovery(s, key, transaction, now, protector);
      }
    } else {
      StrandedRowStays(s, steps[0], key);
      NextJoins(s, steps[0]);
      NextKeepsCoupled(s, steps[0]);
      StrandedForGood(Next(s, steps[0]), steps[1..], used + Generations(steps[0]), key);
    }
  }

  /**
   When a stranded attempt's invitation also has a finished attempt, compaction fails for good once the invitation has
   expired: in every later state every issue is Rejected and every reserve refused, and nothing changes.
   */
  lemma BlockedForGood(s: Storage, steps: seq<Step>, used: set<nat>, key: nat, other: nat, now: u64)
    requires Coupled(s.tables) && Stranded(s.tables, key) && AllFresh(s, steps, used)
    requires other in s.tables.attempts && !Live(s.tables.attempts[other].state)
    requires s.tables.attempts[other].request.invitationId == s.tables.attempts[key].request.invitationId
    requires s.tables.attempts[key].request.generation in used
    requires s.tables.attempts[key].request.invitationExpiresAt <= now
    ensures var last := Run(s, steps);
            && Compact(last.tables, now) == None
            && (forall id, generation, issuedAt, expiresAt ::
                  Issue(last, id, generation, issuedAt, expiresAt, now) == (last, Err(Rejected)))
            && (forall r, protector, drawn ::
                  && Reserve(last, r, now, protector, drawn).0 == last
                  && Reserve(last, r, now, protector, drawn).1.Err?)
  {
    hide PairsOk, OpeningsOk, GenerationsOk, JoinsOk, Run, AllFresh, RecoverOutcome, Compact;
    var a := s.tables.attempts[other];
    assert RowOk(s.tables, key) && RowOk(s.tables, other);
    AttemptsMoveForward(s, steps, used, other, a);
    StrandedForGood(s, steps, used, key);
    RunKeepsCoupled(s, steps, used);
    var t := Run(s, steps).tables;
    assert RowOk(t, key);
    var id := a.request.invitationId;
    assert t.openings[id].generation == a.request.generation;
    assert RowOk(t, other);
    assert OwnsTerminal(t, id, now, other);
    assert StuckReserved(t, id, now);
    CompactionDecided(t, now);
  }

  // ---------- how an attempt becomes stranded ----------

  /** Beginning a membership strands its attempt exactly when the transaction id is already joined. */
  lemma BeginStrandsIffJoined(s: Storage, h: Handle, transaction: nat, now: u64, protector: Protector)
    requires BeginMembership(s, h, transaction, now, protector).1.Ok?
    ensures Stranded(BeginMembership(s, h, transaction, now, protector).0.tables, h.attempt)
            <==> transaction in s.tables.joins
  {
    hide TransactionTaken;
  }

  /** While its outcome stays unknown, a step gives an attempt's transaction id a join row exactly by a seeded commit. */
  lemma StepStrands(s: Storage, step: Step, key: nat)
    requires Coupled(s.tables) && key in s.tables.attempts && s.tables.attempts[key].state.OutcomeUnknown?
    requires !Stranded(s.tables, key)
    requires key in Next(s, step).tables.attempts && Next(s, step).tables.attempts[key] == s.tables.attempts[key]
    ensures Stranded(Next(s, step).tables, key) <==>
              s.tables.attempts[key].transaction.Some? && s.tables.attempts[key].transaction.value in SeededBy(s, step)
  {
    hide PairsOk, OpeningsOk, GenerationsOk, JoinsOk, RowsOk, Next;
    NextJoins(s, step);
    if step.CommittingAuthorized? {
      UnknownNotCommitted(s, step, key);
    }
  }

  lemma UnknownNotCommitted(s: Storage, step: Step, key: nat)
    requires Coupled(s.tables) && key in s.tables.attempts && s.tables.attempts[key].state.OutcomeUnknown?
    requires s.tables.attempts[key].transaction.Some? ==> s.tables.attempts[key].transaction.value !in s.tables.joins
    requires step.CommittingAuthorized?
    requires key in Next(s, step).tables.attempts && Next(s, step).tables.attempts[key] == s.tables.attempts[key]
    ensures s.tables.attempts[key].transaction.Some? ==>
              s.tables.attempts[key].transaction.value !in Next(s, step).tables.joins
  {
    hide OpeningsOk, GenerationsOk, JoinsOk, RowsOk, JoinClashes;
    assert PairOk(s.tables.attempts, key, step.m.attempt);
  }

  /**
   Along any run at whose end an attempt's outcome is still unknown, it is stranded exactly when a seeded commit of the
   run inserted a join row under its transaction id.
   */
  lemma {:induction false} StrandedIffSeeded(s: Storage, steps: seq<Step>, used: set<nat>, key: nat, a: Attempt)
    requires Coupled(s.tables) && AllFresh(s, steps, used) && a.request.generation in used
    requires key in s.tables.attempts && s.tables.attempts[key] == a
    requires a.state.OutcomeUnknown? && a.transaction.Some? && !Stranded(s.tables, key)
    requires key in Run(s, steps).tables.attempts && Run(s, steps).tables.attempts[key] == a
    ensures Stranded(Run(s, steps).tables, key) <==> a.transaction.value in SeededIn(s, steps)
    decreases |steps|
  {
    hide Coupled, Next, Fresh, SeededBy, RecoverOutcome;
    if steps != [] {
      var next := Next(s, steps[0]);
      var rest := used + Generations(steps[0]);
      NextKeepsCoupled(s, steps[0]);
      UnknownAllAlong(s, steps, used, key, a);
      StepStrands(s, steps[0], key);
      if Stranded(next.tables, key) {
        StrandedForGood(next, steps[1..], rest, key);
      } else {
        StrandedIffSeeded(next, steps[1..], rest, key, a);
      }
    }
  }

  /** An attempt whose outcome is unknown before and after a run kept its row at every step of it. */
  lemma UnknownAllAlong(s: Storage, steps: seq<Step>, used: set<nat>, key: nat, a: Attempt)
    requires Coupled(s.tables) && AllFresh(s, steps, used) && a.request.generation in used && steps != []
    requires key in s.tables.attempts && s.tables.attempts[key] == a && a.state.OutcomeUnknown? && a.transaction.Some?
    requires key in Run(s, steps).tables.attempts && Run(s, steps).tables.attempts[key] == a
    ensures key in Next(s, steps[0]).tables.attempts && Next(s, steps[0]).tables.attempts[key] == a
  {
    hide PairsOk, OpeningsOk, GenerationsOk, JoinsOk, Next, Fresh;
    var next := Next(s, steps[0]);
    var rest := used + Generations(steps[0]);
    var last := Run(next, steps[1..]);
    RunKeepsCoupled(s, steps, used);
    NextKeepsCoupled(s, steps[0]);
    assert RowOk(last.tables, key);
    assert last.tables.openings[a.request.invitationId].generation == a.request.generation;
    OpenFromTheStart(next, steps[1..], rest, a.request.generation);
    StepAlive(s, steps[0], used, key, a);
    AttemptsMoveForward(next, steps[1..], rest, key, next.tables.attempts[key]);
  }
}
