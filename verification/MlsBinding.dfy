/**
 Durable MLS Add binding. The provider's whole state is one opaque value; every operation that may change
 it moves the group's revision first, and a committed Add is bound to the revision right after it.
 */
module MlsBinding {
  import opened Common

  type Provider = nat

  /** A prepared Add borrows the group; nothing else runs until it is applied or dropped. */
  datatype Phase = Free | Preparing(epochBefore: nat)

  /** `binding` is the identity of the shared revision counter; `stored` is the snapshot last written. */
  datatype Group = Group(
    binding: nat, groupId: nat, revision: nat, provider: Provider, epoch: nat, members: nat,
    pending: Option<nat>, inactive: bool, phase: Phase, stored: Option<Provider>)

  /** A committed Add. `snapshot` is the provider state right after it was applied; no check reads it. */
  datatype Addition = Addition(
    binding: nat, revision: nat, groupId: nat, epochAfter: nat, welcome: nat, commit: nat, snapshot: Provider)

  datatype Persisted = Persisted(welcome: nat, commit: nat)

  datatype MlsError = GroupFull | RejectedKeyPackage | MessageRefused | ProtocolRejected | UnexpectedOutput | StaleSnapshot | StagingFailed

  /** What the provider does inside one call: its state, epoch and roster after it. */
  datatype Effect = Effect(provider: Provider, epoch: nat, members: nat)

  /** What preparing an Add meets: a member with the same identity, a refusal by the provider, or a pending commit. */
  datatype Preparation = Duplicate | Refused(error: MlsError) | Built

  function Bump(g: Group): Group {
    g.(revision := g.revision + 1)
  }

  function Changed(g: Group, e: Effect): Group {
    g.(provider := e.provider, epoch := e.epoch, members := e.members)
  }

  function PrepareAdd(g: Group, met: Preparation, e: Effect): (Group, Result<(), MlsError>)
    requires g.phase.Free?
  {
    var bumped := Bump(g);
    if g.members != 1 then (bumped, Err(GroupFull))
    else if met.Duplicate? then (bumped, Err(RejectedKeyPackage))
    else if met.Refused? then (Changed(bumped, e), Err(met.error))
    else (Changed(bumped, e).(phase := Preparing(g.epoch)), Ok(()))
  }

  /** Dropping a prepared Add clears the provider's pending commit, without moving the revision. */
  function DropPrepared(g: Group, e: Effect): Group
    requires g.phase.Preparing?
  {
    Changed(g, e).(phase := Free)
  }

  /** `holds` says that the resulting group still satisfies the two-member profile. */
  function ApplyAdd(g: Group, applies: bool, holds: bool, e: Effect, welcome: nat, commit: nat)
    : (Group, Result<Addition, MlsError>)
    requires g.phase.Preparing?
  {
    if !applies then (DropPrepared(g, e), Err(ProtocolRejected))
    else
      var applied := Changed(g, e).(phase := Free);
      if e.epoch != g.phase.epochBefore + 1 || e.members != 2 || !holds then
        (applied.(inactive := true), Err(UnexpectedOutput))
      else
        var bound := Bump(applied);
        (bound.(pending := Some(bound.revision)),
         Ok(Addition(bound.binding, bound.revision, bound.groupId, bound.epoch, welcome, commit, bound.provider)))
  }

  /** Every other provider operation: updates, removals, encryption, incoming messages, failed or not. */
  function Operate(g: Group, e: Effect): Group
    requires g.phase.Free?
  {
    Changed(Bump(g), e)
  }

  function PlainWrite(g: Group, providerWrites: bool): (Group, Result<(), MlsError>)
    requires g.phase.Free?
  {
    if g.pending.Some? || !providerWrites then (g, Err(ProtocolRejected))
    else (g.(stored := Some(g.provider)), Ok(()))
  }

  predicate Current(g: Group, a: Addition) {
    && a.binding == g.binding && a.revision == g.revision && g.pending == Some(a.revision)
    && a.groupId == g.groupId && a.epochAfter == g.epoch
  }

  /** Stages the caller's metadata and writes; Welcome and Commit come back only from a write that happened. */
  function StageAndWrite(g: Group, a: Addition, stages: bool, authorityFree: bool, providerWrites: bool)
    : (Group, Result<Persisted, MlsError>)
    requires g.phase.Free?
  {
    if !Current(g, a) then (g, Err(StaleSnapshot))
    else if !stages then (g, Err(StagingFailed))
    else if !authorityFree || !providerWrites then (g, Err(ProtocolRejected))
    else (g.(stored := Some(g.provider), pending := None), Ok(Persisted(a.welcome, a.commit)))
  }

  // ---------- runs ----------

  datatype Step =
    | Readying(met: Preparation, e: Effect)
    | Applying(applies: bool, holds: bool, e: Effect, welcome: nat, commit: nat)
    | Dropping(e: Effect)
    | Operating(e: Effect)
    | Writing(providerWrites: bool)
    | Staging(a: Addition, stages: bool, authorityFree: bool, providerWrites: bool)

  predicate Enabled(g: Group, step: Step) {
    if step.Applying? || step.Dropping? then g.phase.Preparing? else g.phase.Free?
  }

  function Next(g: Group, step: Step): Group
    requires Enabled(g, step)
  {
    match step
    case Readying(met, e) => PrepareAdd(g, met, e).0
    case Applying(applies, holds, e, welcome, commit) => ApplyAdd(g, applies, holds, e, welcome, commit).0
    case Dropping(e) => DropPrepared(g, e)
    case Operating(e) => Operate(g, e)
    case Writing(writes) => PlainWrite(g, writes).0
    case Staging(a, stages, authorityFree, writes) => StageAndWrite(g, a, stages, authorityFree, writes).0
  }

  predicate AllEnabled(g: Group, steps: seq<Step>)
    decreases |steps|
  {
    steps == [] || (Enabled(g, steps[0]) && AllEnabled(Next(g, steps[0]), steps[1..]))
  }

  function Run(g: Group, steps: seq<Step>): Group
    requires AllEnabled(g, steps)
    decreases |steps|
  {
    if steps == [] then g else Run(Next(g, steps[0]), steps[1..])
  }

  // ---------- the binding ----------

  /** An issued Add either is out of date or still names the provider's present state. */
  predicate Bound(g: Group, a: Addition) {
    && a.binding == g.binding ==>
         && a.revision <= g.revision
         && (g.phase.Preparing? ==> a.revision < g.revision)
         && (a.revision == g.revision ==> a.snapshot == g.provider && a.epochAfter == g.epoch)
  }

  lemma NextKeepsBound(g: Group, step: Step, a: Addition)
    requires Enabled(g, step) && Bound(g, a)
    ensures Bound(Next(g, step), a) && Next(g, step).binding == g.binding
  {
  }

  lemma NewAdditionIsBound(g: Group, step: Step)
    requires step.Applying? && Enabled(g, step)
    requires ApplyAdd(g, step.applies, step.holds, step.e, step.welcome, step.commit).1.Ok?
    ensures var a := ApplyAdd(g, step.applies, step.holds, step.e, step.welcome, step.commit).1.value;
            Bound(Next(g, step), a) && a.snapshot == step.e.provider && Current(Next(g, step), a)
  {
  }

  lemma {:induction false} RunKeepsBound(g: Group, steps: seq<Step>, a: Addition)
    requires AllEnabled(g, steps) && Bound(g, a)
    ensures Bound(Run(g, steps), a)
    decreases |steps|
  {
    hide Next, Bound;
    if steps != [] {
      NextKeepsBound(g, steps[0], a);
      RunKeepsBound(Next(g, steps[0]), steps[1..], a);
    }
  }

  /**
   Whatever ran between an Add and its staged write: if the write succeeds, the snapshot written is the
   provider state right after that Add, Welcome and Commit are that Add's, and no second write can follow
   for it.
   */
  lemma WrittenSnapshotIsTheAdd(g: Group, step: Step, steps: seq<Step>, stages: bool, free: bool, writes: bool)
    requires step.Applying? && Enabled(g, step)
    requires ApplyAdd(g, step.applies, step.holds, step.e, step.welcome, step.commit).1.Ok?
    requires AllEnabled(Next(g, step), steps) && Run(Next(g, step), steps).phase.Free?
    requires var a := ApplyAdd(g, step.applies, step.holds, step.e, step.welcome, step.commit).1.value;
             StageAndWrite(Run(Next(g, step), steps), a, stages, free, writes).1.Ok?
    ensures var a := ApplyAdd(g, step.applies, step.holds, step.e, step.welcome, step.commit).1.value;
            var (after, answer) := StageAndWrite(Run(Next(g, step), steps), a, stages, free, writes);
            && after.stored == Some(step.e.provider)
            && answer.value == Persisted(step.welcome, step.commit)
            && StageAndWrite(after, a, stages, free, writes) == (after, Err(StaleSnapshot))
  {
    var a := ApplyAdd(g, step.applies, step.holds, step.e, step.welcome, step.commit).1.value;
    NewAdditionIsBound(g, step);
    RunKeepsBound(Next(g, step), steps, a);
  }

  // ---------- no other write while an Add is pending ----------

  /** A staged write succeeds somewhere in the run. */
  predicate StagedIn(g: Group, steps: seq<Step>)
    requires AllEnabled(g, steps)
    decreases |steps|
  {
    steps != []
    && ((steps[0].Staging? && StageAndWrite(g, steps[0].a, steps[0].stages, steps[0].authorityFree, steps[0].providerWrites).1.Ok?)
        || StagedIn(Next(g, steps[0]), steps[1..]))
  }

  /** While an Add is pending, only its own staged write changes what is stored. */
  lemma {:induction false} StorageWaitsForTheAdd(g: Group, steps: seq<Step>)
    requires AllEnabled(g, steps) && g.pending.Some? && !StagedIn(g, steps)
    ensures Run(g, steps).stored == g.stored && Run(g, steps).pending.Some?
    decreases |steps|
  {
    if steps != [] {
      StorageWaitsForTheAdd(Next(g, steps[0]), steps[1..]);
    }
  }

  // ---------- the group as it runs ----------

  class DurableGroup {
    const binding: nat
    const groupId: nat
    var revision: nat
    var provider: Provider
    var epoch: nat
    var members: nat
    var pending: Option<nat>
    var inactive: bool
    var phase: Phase
    var stored: Option<Provider>

    ghost function State(): Group
      reads this
    {
      Group(binding, groupId, revision, provider, epoch, members, pending, inactive, phase, stored)
    }

    constructor (binding: nat, groupId: nat, e: Effect)
      ensures State() == Group(binding, groupId, 0, e.provider, e.epoch, e.members, None, false, Free, None)
    {
      this.binding := binding;
      this.groupId := groupId;
      revision := 0;
      provider := e.provider;
      epoch := e.epoch;
      members := e.members;
      pending := None;
      inactive := false;
      phase := Free;
      stored := None;
    }

    method Become(e: Effect)
      modifies this`provider, this`epoch, this`members
      ensures State() == Changed(old(State()), e)
    {
      provider := e.provider;
      epoch := e.epoch;
      members := e.members;
    }

    method Prepare(met: Preparation, e: Effect) returns (answer: Result<(), MlsError>)
      requires phase.Free?
      modifies this
      ensures (State(), answer) == PrepareAdd(old(State()), met, e)
    {
      revision := revision + 1;
      if members != 1 {
        return Err(GroupFull);
      }
      if met.Duplicate? {
        return Err(RejectedKeyPackage);
      }
      var before := epoch;
      Become(e);
      if met.Refused? {
        return Err(met.error);
      }
      phase := Preparing(before);
      return Ok(());
    }

    method Apply(applies: bool, holds: bool, e: Effect, welcome: nat, commit: nat)
      returns (answer: Result<Addition, MlsError>)
      requires phase.Preparing?
      modifies this
      ensures (State(), answer) == ApplyAdd(old(State()), applies, holds, e, welcome, commit)
    {
      var before := phase.epochBefore;
      Become(e);
      phase := Free;
      if !applies {
        return Err(ProtocolRejected);
      }
      if epoch != before + 1 || members != 2 || !holds {
        inactive := true;
        return Err(UnexpectedOutput);
      }
      revision := revision + 1;
      pending := Some(revision);
      return Ok(Addition(binding, revision, groupId, epoch, welcome, commit, provider));
    }

    method Write(providerWrites: bool) returns (answer: Result<(), MlsError>)
      requires phase.Free?
      modifies this`stored
      ensures (State(), answer) == PlainWrite(old(State()), providerWrites)
    {
      if pending.Some? {
        return Err(ProtocolRejected);
      }
      if !providerWrites {
        return Err(ProtocolRejected);
      }
      stored := Some(provider);
      return Ok(());
    }

    method StageAndWriteToStorage(a: Addition, stages: bool, authorityFree: bool, providerWrites: bool)
      returns (answer: Result<Persisted, MlsError>)
      requires phase.Free?
      modifies this`stored, this`pending
      ensures (State(), answer) == StageAndWrite(old(State()), a, stages, authorityFree, providerWrites)
    {
      if a.binding != binding || a.revision != revision || pending != Some(a.revision)
         || a.groupId != groupId || a.epochAfter != epoch
      {
        return Err(StaleSnapshot);
      }
      if !stages {
        return Err(StagingFailed);
      }
      if !authorityFree {
        return Err(ProtocolRejected);
      }
      if !providerWrites {
        return Err(ProtocolRejected);
      }
      stored := Some(provider);
      pending := None;
      return Ok(Persisted(a.welcome, a.commit));
    }
  }
}
