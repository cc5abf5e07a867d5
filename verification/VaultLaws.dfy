/** What every vault run keeps: fencing, inbox conservation, and tokens that stay dead. */
module VaultLaws {
  import opened Common
  import opened WireObjects
  import opened Vault

  lemma {:induction false} SumGrows(inbox: map<Bytes, InboxRecord>, some: set<Bytes>, all: set<Bytes>)
    requires some <= all <= inbox.Keys
    ensures SumOver(inbox, some) <= SumOver(inbox, all)
    decreases |all|
  {
    if k :| k in all && k !in some {
      SumPicks(inbox, all, k);
      SumGrows(inbox, some, all - {k});
    } else {
      assert some == all;
    }
  }

  lemma {:induction false} KeysShrink(a: set<Bytes>, b: set<Bytes>)
    requires a <= b
    ensures |a| <= |b|
    decreases |a|
  {
    if k :| k in a {
      KeysShrink(a - {k}, b - {k});
    }
  }

  /** Dropping records keeps the inbox sound. */
  lemma SubInboxOk(v: State, after: State)
    requires InboxOk(v) && after.inboxPolicy == v.inboxPolicy && after.nextInsertion == v.nextInsertion
    requires after.inbox.Keys <= v.inbox.Keys && forall k :: k in after.inbox ==> after.inbox[k] == v.inbox[k]
    requires after.totalBytes == Sum(after.inbox)
    ensures InboxOk(after)
  {
    hide DecodeEnvelope, SumOver;
    SumGrows(v.inbox, after.inbox.Keys, v.inbox.Keys);
    SumDependsOnKeys(after.inbox, v.inbox, after.inbox.Keys);
    KeysShrink(after.inbox.Keys, v.inbox.Keys);
    forall k | k in after.inbox ensures RecordOk(after, k) {
      assert RecordOk(v, k);
    }
    forall a, b ensures InsertionsApart(after.inbox, a, b) {
      assert InsertionsApart(v.inbox, a, b);
    }
  }

  lemma PollKeepsInv(v: State, now: u64)
    requires Inv(v)
    ensures Inv(Poll(v, now))
  {
    hide InboxOk, SumOver;
    SubInboxOk(v, Poll(v, now));
  }

  /** Steps that leave the inbox alone. */
  lemma SameInboxOk(v: State, after: State)
    requires InboxOk(v) && after.inbox == v.inbox && after.totalBytes == v.totalBytes
    requires after.inboxPolicy == v.inboxPolicy && after.nextInsertion == v.nextInsertion
    ensures InboxOk(after)
  {
    hide DecodeEnvelope, SumOver;
    forall k | k in after.inbox ensures RecordOk(after, k) {
      assert RecordOk(v, k);
    }
  }

  lemma AppendKeepsInv(v: State, encoded: Bytes, polled: u64, now: u64)
    requires Inv(v)
    ensures Inv(Append(v, encoded, polled, now).0)
  {
    hide DecodeEnvelope, SumOver, Poll;
    PollKeepsInv(v, polled);
    var p := Poll(v, polled);
    var (after, answer) := Append(v, encoded, polled, now);
    if answer == Ok(Stored) {
      var envelope := Admissible(p, encoded, now).value;
      SumInsert(p.inbox, envelope.id, after.inbox[envelope.id]);
      forall k | k in after.inbox ensures RecordOk(after, k) {
        if k != envelope.id {
          assert RecordOk(p, k);
        }
      }
      forall a, b ensures InsertionsApart(after.inbox, a, b) {
        assert InsertionsApart(p.inbox, a, b);
        if a in p.inbox {
          assert RecordOk(p, a);
        }
        if b in p.inbox {
          assert RecordOk(p, b);
        }
      }
    }
  }

  lemma ImportKeepsInv(v: State, pending: PendingImport, polled: u64, now: u64)
    requires Inv(v)
    ensures Inv(CompleteImport(v, pending, polled, now).0)
  {
    hide InboxOk, SumOver, Poll;
    PollKeepsInv(v, polled);
    var p := Poll(v, polled);
    if ImportFits(p, pending, now) {
      SumRemove(p.inbox, pending.envelopeId);
      InboxTotals(p);
      SubInboxOk(p, CompleteImport(v, pending, polled, now).0);
    }
  }

  lemma InboxTotals(v: State)
    requires InboxOk(v)
    ensures v.totalBytes == Sum(v.inbox)
  {
  }

  lemma NextKeepsInv(v: State, step: Step)
    requires Inv(v)
    ensures Inv(Next(v, step))
  {
    hide InboxOk, Poll, Append, CompleteImport, DecodeEnvelope;
    match step
    case Polling(now) => PollKeepsInv(v, now);
    case BeginningUnlock(session, polled, now) =>
      PollKeepsInv(v, polled);
      SameInboxOk(Poll(v, polled), Next(v, step));
    case CompletingUnlock(c, now, completedAt) => SameInboxOk(v, Next(v, step));
    case Privileged(session, polled, now) =>
      PollKeepsInv(v, polled);
      SameInboxOk(Poll(v, polled), Next(v, step));
    case BeginningRelock(session, polled) =>
      PollKeepsInv(v, polled);
      SameInboxOk(Poll(v, polled), Next(v, step));
    case CompletingRelock(a) => SameInboxOk(v, Next(v, step));
    case Forcing => SameInboxOk(v, Next(v, step));
    case Appending(encoded, polled, now) => AppendKeepsInv(v, encoded, polled, now);
    case BeginningImport(session, polled) => PollKeepsInv(v, polled);
    case CompletingImport(pending, polled, now) => ImportKeepsInv(v, pending, polled, now);
  }

  lemma {:induction false} RunKeepsInv(v: State, steps: seq<Step>)
    requires Inv(v)
    ensures Inv(Run(v, steps))
    decreases |steps|
  {
    hide Inv, Next;
    if steps != [] {
      NextKeepsInv(v, steps[0]);
      RunKeepsInv(Next(v, steps[0]), steps[1..]);
    }
  }

  /** Every reachable vault has exact fences and exact byte accounting within its policy. */
  lemma ReachableVaultsAreSound(instance: nat, policy: VaultPolicy, inboxPolicy: InboxPolicy, steps: seq<Step>)
    ensures Inv(Run(New(instance, policy, inboxPolicy), steps))
  {
    RunKeepsInv(New(instance, policy, inboxPolicy), steps);
  }

  // ---------- dead generations ----------

  /** The vault is unlocking or open with this generation. */
  predicate Holds(v: State, generation: u64) {
    (v.lifecycle.Unlocking? || v.lifecycle.Opened?) && v.lifecycle.generation == generation
  }

  lemma GenerationStaysDead(v: State, step: Step, generation: u64)
    requires Inv(v) && generation <= v.nextGeneration && !Holds(v, generation)
    ensures !Holds(Next(v, step), generation) && v.nextGeneration <= Next(v, step).nextGeneration
    ensures Next(v, step).instance == v.instance
  {
    hide InboxOk, SumOver, DecodeEnvelope;
  }

  lemma {:induction false} RunStaysDead(v: State, steps: seq<Step>, generation: u64)
    requires Inv(v) && generation <= v.nextGeneration && !Holds(v, generation)
    ensures !Holds(Run(v, steps), generation)
    decreases |steps|
  {
    hide Inv, Next, Holds;
    if steps != [] {
      NextKeepsInv(v, steps[0]);
      GenerationStaysDead(v, steps[0], generation);
      RunStaysDead(Next(v, steps[0]), steps[1..], generation);
    }
  }

  /**
   Once a generation is no longer held (forced lock, timeout, relock, failed or newer unlock), no
   completion made for it can open the vault and no import made for it can remove inbox data, ever.
   */
  lemma DeadTokensDoNothing(v: State, steps: seq<Step>, c: UnlockCompletion, pending: PendingImport,
                            polled: u64, now: u64, completedAt: u64)
    requires Inv(v) && c.generation <= v.nextGeneration && !Holds(v, c.generation)
    requires pending.openGeneration == c.generation
    ensures var after := Run(v, steps);
            && CompleteUnlock(after, c, now, completedAt) == (after, Err(ReservationMismatch))
            && CompleteImport(after, pending, polled, now) == (Poll(after, polled), Err(ReservationMismatch))
  {
    hide Inv, Run, SumOver, Unexpired;
    RunStaysDead(v, steps, c.generation);
  }

  /** A forced lock, a timeout and a begun relock each end the generation that was held. */
  lemma LockEndsGeneration(v: State, generation: u64, now: u64)
    requires Inv(v) && Holds(v, generation)
    ensures !Holds(ForceLock(v), generation) && ForceLock(v).active == 0
    ensures TimedOut(v.lifecycle, now) ==> !Holds(Poll(v, now), generation) && Poll(v, now).active == 0
    ensures forall session, polled :: BeginRelock(v, session, polled).1.Ok? ==>
              !Holds(BeginRelock(v, session, polled).0, generation)
    ensures generation <= v.nextGeneration
  {
    hide InboxOk, SumOver;
  }

  /** Only a completion of the current generation, on time, opens the vault. */
  lemma OpeningNeedsCurrentGeneration(v: State, c: UnlockCompletion, now: u64, completedAt: u64)
    requires Inv(v) && CompleteUnlock(v, c, now, completedAt).1.Ok?
    ensures c.generation == v.active && c.outcome == Ready(true) && completedAt < v.lifecycle.expiresAt
    ensures var after := CompleteUnlock(v, c, now, completedAt).0;
            Holds(after, c.generation) && after.lifecycle.Opened? && after.active == 0
    ensures CompleteUnlock(CompleteUnlock(v, c, now, completedAt).0, c, now, completedAt).1 == Err(ReservationMismatch)
  {
    hide InboxOk;
  }

  // ---------- inbox ----------

  /** Import never meets a record it cannot decode: a stored envelope is handed out under its own id. */
  lemma ImportAlwaysDecodes(v: State, session: nat, polled: u64)
    requires Inv(v)
    ensures var (p, answer) := BeginImport(v, session, polled);
            p.lifecycle.Opened? && p.lifecycle.session == session ==>
              if p.inbox == map[] then answer == Ok(None)
              else answer.Ok? && answer.value.Some? && IsFirst(p.inbox.Keys, answer.value.value.envelopeId)
                   && answer.value.value.envelope.id == answer.value.value.envelopeId
                   && EncodeEnvelope(answer.value.value.envelope) == Ok(p.inbox[answer.value.value.envelopeId].encoded)
  {
    hide DecodeEnvelope, EncodeEnvelope, SumOver, Poll;
    PollKeepsInv(v, polled);
    var p := Poll(v, polled);
    if p.inbox != map[] {
      assert p.inbox.Keys != {};
      var id := First(p.inbox.Keys);
      assert RecordOk(p, id);
      EnvelopeCodec(DecodeEnvelope(p.inbox[id].encoded).value, p.inbox[id].encoded);
    }
  }

  /** The outer size bound of the inbox refuses no canonical envelope. */
  lemma OuterBoundIsSufficient(v: State, envelope: OpaqueEnvelope, now: u64)
    requires envelope.Constructible() && !AllZero(envelope.id)
    requires now < envelope.expiresAt && envelope.expiresAt - now <= v.inboxPolicy.lifetimeSeconds
    ensures EncodeEnvelope(envelope).Ok? && Admissible(v, EncodeEnvelope(envelope).value, now) == Ok(envelope)
  {
    EnvelopeAlwaysEncodes(envelope);
    EnvelopeCodec(envelope, EncodeEnvelope(envelope).value);
    hide DecodeEnvelope, EncodeEnvelope;
  }

  predicate InsertionPresent(v: State, insertion: u64) {
    exists k :: k in v.inbox && v.inbox[k].insertion == insertion
  }

  lemma InsertionStaysGone(v: State, step: Step, insertion: u64)
    requires Inv(v) && insertion <= v.nextInsertion && !InsertionPresent(v, insertion)
    ensures !InsertionPresent(Next(v, step), insertion) && v.nextInsertion <= Next(v, step).nextInsertion
  {
    hide InboxOk, SumOver, DecodeEnvelope;
  }

  /** The insertion an import step completes, if it does. */
  ghost function Imported(v: State, step: Step): seq<u64> {
    match step
    case CompletingImport(pending, polled, now) =>
      if CompleteImport(v, pending, polled, now).1.Ok? then [pending.insertion] else []
    case _ => []
  }

  ghost function ImportedBy(v: State, steps: seq<Step>): seq<u64>
    decreases |steps|
  {
    if steps == [] then [] else Imported(v, steps[0]) + ImportedBy(Next(v, steps[0]), steps[1..])
  }

  lemma ImportConsumes(v: State, step: Step)
    requires Inv(v) && Imported(v, step) != []
    ensures var insertion := Imported(v, step)[0];
            && insertion <= v.nextInsertion && insertion <= Next(v, step).nextInsertion
            && InsertionPresent(v, insertion) && !InsertionPresent(Next(v, step), insertion)
  {
    hide DecodeEnvelope, SumOver, Poll;
    PollKeepsInv(v, step.polled);
    var p := Poll(v, step.polled);
    PollKeepsRecords(v, step.polled);
    var id := step.pending.envelopeId;
    assert RecordOk(p, id);
    assert v.inbox[id].insertion == step.pending.insertion;
    forall k | k in Next(v, step).inbox ensures Next(v, step).inbox[k].insertion != step.pending.insertion {
      assert InsertionsApart(p.inbox, k, id);
    }
  }

  lemma PollKeepsRecords(v: State, now: u64)
    ensures forall k :: k in Poll(v, now).inbox ==> k in v.inbox && Poll(v, now).inbox[k] == v.inbox[k]
    ensures Poll(v, now).nextInsertion == v.nextInsertion
  {
  }

  lemma {:induction false} GoneIsNeverImported(v: State, steps: seq<Step>, insertion: u64)
    requires Inv(v) && insertion <= v.nextInsertion && !InsertionPresent(v, insertion)
    ensures insertion !in ImportedBy(v, steps)
    decreases |steps|
  {
    hide Inv, Next, Imported, InsertionPresent;
    if steps != [] {
      NextKeepsInv(v, steps[0]);
      InsertionStaysGone(v, steps[0], insertion);
      if Imported(v, steps[0]) != [] {
        ImportConsumes(v, steps[0]);
        ImportIsSingle(v, steps[0]);
      }
      GoneIsNeverImported(Next(v, steps[0]), steps[1..], insertion);
    }
  }

  lemma ImportIsSingle(v: State, step: Step)
    ensures |Imported(v, step)| <= 1
  {
  }

  /** Each stored insertion is completed at most once, even when the same envelope id is stored again. */
  lemma {:induction false} ImportedAtMostOnce(v: State, steps: seq<Step>, i: nat, k: nat)
    requires Inv(v) && i < k < |ImportedBy(v, steps)|
    ensures ImportedBy(v, steps)[i] != ImportedBy(v, steps)[k]
    decreases |steps|
  {
    hide Inv, Next, Imported, InsertionPresent;
    var first := Imported(v, steps[0]);
    NextKeepsInv(v, steps[0]);
    ImportIsSingle(v, steps[0]);
    if i < |first| {
      ImportConsumes(v, steps[0]);
      GoneIsNeverImported(Next(v, steps[0]), steps[1..], first[0]);
    } else {
      ImportedAtMostOnce(Next(v, steps[0]), steps[1..], i - |first|, k - |first|);
    }
  }
}
