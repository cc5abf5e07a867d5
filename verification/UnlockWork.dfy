/**
 Unlock work outside the vault. Preparing a completion reads the shared generation three times, asks the limiter, the
 credential source and the protector in between, and may be interleaved with any operation of the vault.
 */
module UnlockWork {
  import opened Common
  import opened WireObjects
  import opened Vault
  import opened VaultLaws

  /** How far the work has come: a check, a permit, a check, a credential, a check, and the unsealed key. */
  datatype Stage = Arrived | Checked | Permitted | Confirmed | Acquired | Cleared | Done(outcome: UnlockOutcome)

  datatype Work = Work(attempt: UnlockAttempt, stage: Stage)

  datatype System = System(vault: State, work: Work)

  /** One operation of the vault, or the work's next action with the answer it gets from outside. */
  datatype Move = VaultMoves(step: Step) | WorkMoves(granted: bool)

  predicate IsCurrent(v: State, a: UnlockAttempt) {
    v.active == a.generation
  }

  function Advance(v: State, w: Work, granted: bool): Stage {
    match w.stage
    case Arrived =>
      if !IsCurrent(v, w.attempt) then Done(Failed(ReservationMismatch))
      else if !granted then Done(Failed(ProviderFailure))
      else Checked
    case Checked => if granted then Permitted else Done(Failed(CapacityExceeded))
    case Permitted => if IsCurrent(v, w.attempt) then Confirmed else Done(Failed(ReservationMismatch))
    case Confirmed => if granted then Acquired else Done(Failed(ProviderFailure))
    case Acquired => if IsCurrent(v, w.attempt) then Cleared else Done(Failed(ReservationMismatch))
    case Cleared => Done(if granted then Ready(true) else Failed(ProviderFailure))
    case Done(_) => w.stage
  }

  ghost function Apply(s: System, move: Move): System {
    match move
    case VaultMoves(step) => s.(vault := Next(s.vault, step))
    case WorkMoves(granted) => s.(work := s.work.(stage := Advance(s.vault, s.work, granted)))
  }

  ghost function RunMoves(s: System, moves: seq<Move>): System
    decreases |moves|
  {
    if moves == [] then s else RunMoves(Apply(s, moves[0]), moves[1..])
  }

  predicate UnlockingWith(v: State, generation: u64) {
    v.lifecycle.Unlocking? && v.lifecycle.generation == generation
  }

  /** The third check has passed. */
  predicate PastChecks(stage: Stage) {
    stage.Cleared? || (stage.Done? && stage.outcome.Ready?)
  }

  lemma CurrentMeansUnlocking(v: State, a: UnlockAttempt)
    requires FencesOk(v) && a.generation != 0
    ensures IsCurrent(v, a) <==> UnlockingWith(v, a.generation)
  {
  }

  /** A vault that is not unlocking with an issued generation never does so again. */
  lemma UnlockingEndsForGood(v: State, step: Step, generation: u64)
    requires FencesOk(v) && generation <= v.nextGeneration && !UnlockingWith(v, generation)
    ensures generation <= Next(v, step).nextGeneration && !UnlockingWith(Next(v, step), generation)
  {
    hide SumOver, DecodeEnvelope;
  }

  lemma MoveKeepsInv(s: System, move: Move)
    requires Inv(s.vault)
    ensures Inv(Apply(s, move).vault) && Apply(s, move).work.attempt == s.work.attempt
  {
    hide Inv, Next;
    if move.VaultMoves? {
      NextKeepsInv(s.vault, move.step);
    }
  }

  /** Once the generation is over before the third check, the work never passes it. */
  lemma {:induction false} OverNeverPasses(s: System, moves: seq<Move>)
    requires Inv(s.vault) && 0 < s.work.attempt.generation <= s.vault.nextGeneration
    requires !PastChecks(s.work.stage) && !UnlockingWith(s.vault, s.work.attempt.generation)
    ensures !PastChecks(RunMoves(s, moves).work.stage)
    decreases |moves|
  {
    hide InboxOk, Next, UnlockingWith;
    if moves != [] {
      MoveKeepsInv(s, moves[0]);
      CurrentMeansUnlocking(s.vault, s.work.attempt);
      if moves[0].VaultMoves? {
        UnlockingEndsForGood(s.vault, moves[0].step, s.work.attempt.generation);
      }
      OverNeverPasses(Apply(s, moves[0]), moves[1..]);
    }
  }

  /** At every moment until the third check has passed, the vault is unlocking with the work's generation. */
  ghost predicate CurrentUntilCleared(s: System, moves: seq<Move>)
    decreases |moves|
  {
    PastChecks(s.work.stage)
    || (UnlockingWith(s.vault, s.work.attempt.generation)
        && (moves == [] || CurrentUntilCleared(Apply(s, moves[0]), moves[1..])))
  }

  /**
   Whatever the vault does meanwhile, a key is only unsealed if the vault was unlocking with the work's generation
   without interruption from the start of the work until the third check, so also when the credential was acquired.
   */
  lemma {:induction false} KeyMeansUninterrupted(s: System, moves: seq<Move>)
    requires Inv(s.vault) && 0 < s.work.attempt.generation <= s.vault.nextGeneration
    requires PastChecks(RunMoves(s, moves).work.stage)
    ensures CurrentUntilCleared(s, moves)
    decreases |moves|
  {
    hide InboxOk, Next, UnlockingWith;
    if !PastChecks(s.work.stage) {
      if !UnlockingWith(s.vault, s.work.attempt.generation) {
        OverNeverPasses(s, moves);
      } else if moves != [] {
        MoveKeepsInv(s, moves[0]);
        if moves[0].VaultMoves? {
          CountersGrow(s.vault, moves[0].step);
        }
        KeyMeansUninterrupted(Apply(s, moves[0]), moves[1..]);
      }
    }
  }

  lemma CountersGrow(v: State, step: Step)
    ensures v.nextGeneration <= Next(v, step).nextGeneration
  {
    hide SumOver, DecodeEnvelope;
  }

  /** Work begun by the vault itself starts under its own generation, so the law applies to every unlock. */
  lemma BegunWorkIsCovered(v: State, session: nat, polled: u64, now: u64, moves: seq<Move>)
    requires Inv(v) && BeginUnlock(v, session, polled, now).1.Ok?
    requires var (after, answer) := BeginUnlock(v, session, polled, now);
             PastChecks(RunMoves(System(after, Work(answer.value, Arrived)), moves).work.stage)
    ensures var (after, answer) := BeginUnlock(v, session, polled, now);
            CurrentUntilCleared(System(after, Work(answer.value, Arrived)), moves)
  {
    hide InboxOk, RunMoves, CurrentUntilCleared, SumOver, Next;
    var (after, answer) := BeginUnlock(v, session, polled, now);
    assert Next(v, BeginningUnlock(session, polled, now)) == after by { BeginIsStep(v, session, polled, now); }
    NextKeepsInv(v, BeginningUnlock(session, polled, now));
    KeyMeansUninterrupted(System(after, Work(answer.value, Arrived)), moves);
  }

  lemma BeginIsStep(v: State, session: nat, polled: u64, now: u64)
    ensures Next(v, BeginningUnlock(session, polled, now)) == BeginUnlock(v, session, polled, now).0
  {
  }

  /**
   The third check does not cover the unsealing itself: a lock between the two still yields a key. Its completion is
   refused, whenever it arrives.
   */
  lemma LockAfterLastCheck(s: System, steps: seq<Step>, now: u64, completedAt: u64)
    requires Inv(s.vault) && 0 < s.work.attempt.generation <= s.vault.nextGeneration && s.work.stage.Cleared?
    ensures var after := RunMoves(s, [VaultMoves(Forcing), WorkMoves(true)]);
            var a := s.work.attempt;
            var last := Run(after.vault, steps);
            && after.work.stage == Done(Ready(true)) && !IsCurrent(after.vault, a)
            && CompleteUnlock(last, UnlockCompletion(a.instance, a.session, a.generation, Ready(true)), now, completedAt)
               == (last, Err(ReservationMismatch))
  {
    hide InboxOk, Run, Next;
    var moves := [VaultMoves(Forcing), WorkMoves(true)];
    var locked := Apply(s, moves[0]);
    assert locked.vault == ForceLock(s.vault) by { ForcingLocks(s.vault); }
    assert moves[1..] == [WorkMoves(true)] && moves[1..][1..] == [];
    var after := RunMoves(s, moves);
    assert after == Apply(locked, WorkMoves(true));
    MoveKeepsInv(s, moves[0]);
    RunStaysDead(after.vault, steps, s.work.attempt.generation);
  }

  lemma ForcingLocks(v: State)
    ensures Next(v, Forcing) == ForceLock(v)
  {
  }

  // ---------- generations ----------

  /** The generation a step hands out, if it begins an unlock or a relock. */
  ghost function Begun(v: State, step: Step): seq<u64> {
    match step
    case BeginningUnlock(session, polled, now) =>
      var answer := BeginUnlock(v, session, polled, now).1;
      if answer.Ok? then [answer.value.generation] else []
    case BeginningRelock(session, polled) =>
      var answer := BeginRelock(v, session, polled).1;
      if answer.Ok? then [answer.value.generation] else []
    case _ => []
  }

  ghost function BegunBy(v: State, steps: seq<Step>): seq<u64>
    decreases |steps|
  {
    if steps == [] then [] else Begun(v, steps[0]) + BegunBy(Next(v, steps[0]), steps[1..])
  }

  predicate Rising(low: u64, generations: seq<u64>) {
    && (forall i :: 0 <= i < |generations| ==> low < generations[i])
    && (forall i, j :: 0 <= i < j < |generations| ==> generations[i] < generations[j])
  }

  /** Along any run every begun unlock and relock gets a generation above all earlier ones: no two ever share one. */
  lemma {:induction false} GenerationsRise(v: State, steps: seq<Step>)
    ensures Rising(v.nextGeneration, BegunBy(v, steps))
    decreases |steps|
  {
    hide Next, Begun;
    if steps != [] {
      BeginCounts(v, steps[0]);
      GenerationsRise(Next(v, steps[0]), steps[1..]);
    }
  }

  lemma BeginCounts(v: State, step: Step)
    ensures v.nextGeneration <= Next(v, step).nextGeneration
    ensures Begun(v, step) == [] || Begun(v, step) == [Next(v, step).nextGeneration]
    ensures Begun(v, step) != [] ==> v.nextGeneration < Next(v, step).nextGeneration
  {
    hide SumOver, DecodeEnvelope;
  }
}
