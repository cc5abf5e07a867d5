/** Every step, and so every run, keeps the authorization tables coupled. */
module AuthLaws {
  import opened Common
  import opened AuthTables
  import opened Authorization
  import opened AuthInvariant
  import opened AuthSteps

  // ---------- restart recovery, one attempt at a time ----------

  /** In coupled tables the next release finds its opening still Reserved and untouched. */
  lemma AbandonOneMore(t: Tables, keys: set<nat>, key: nat, now: u64, protector: Protector)
    requires Coupled(t) && keys <= Stale(t) && key in Stale(t) && key !in keys
    ensures var mid := AbandonAll(t, keys, now, protector);
            var r := t.attempts[key].request;
            && key in mid.attempts && mid.attempts[key] == t.attempts[key]
            && r.invitationId in t.openings && mid.openings[r.invitationId] == t.openings[r.invitationId]
            && AbandonAll(t, keys + {key}, now, protector)
               == Ended(mid, key, Abandoned, Released(t.openings[r.invitationId], now, protector))
            && AbandonOne(mid, key, now, protector) == Some(AbandonAll(t, keys + {key}, now, protector))
  {
    hide PairsOk, OpeningsOk, GenerationsOk, JoinsOk;
    var mid := AbandonAll(t, keys, now, protector);
    var id := t.attempts[key].request.invitationId;
    assert RowOk(t, key);
    forall other | other in keys ensures !OwnedBy(t, id, other) {
      LiveAlone(t, key, other);
    }
    var more := AbandonAll(t, keys + {key}, now, protector);
    var ended := Ended(mid, key, Abandoned, Released(t.openings[id], now, protector));
    assert OwnedBy(t, id, key);
    assert more.attempts == ended.attempts;
    forall i | i in t.openings ensures more.openings[i] == ended.openings[i] {
      if i != id {
        assert !OwnedBy(t, i, key);
      }
    }
    assert more.openings == ended.openings;
  }

  lemma {:induction false} AbandonAllIsCoupled(t: Tables, keys: set<nat>, now: u64, protector: Protector)
    requires Coupled(t) && keys <= Stale(t)
    ensures Coupled(AbandonAll(t, keys, now, protector))
    decreases |keys|
  {
    if keys == {} {
      assert AbandonAll(t, keys, now, protector) == t;
    } else {
      var key :| key in keys;
      var rest := keys - {key};
      assert rest + {key} == keys;
      AbandonAllIsCoupled(t, rest, now, protector);
      AbandonOneMore(t, rest, key, now, protector);
      var mid := AbandonAll(t, rest, now, protector);
      EndAttempt(mid, key, Abandoned, Released(t.openings[t.attempts[key].request.invitationId], now, protector));
    }
  }

  // ---------- every step keeps the coupling ----------

  lemma IssueKeeps(s: Storage, id: nat, generation: nat, issuedAt: u64, expiresAt: u64, now: u64)
    requires Coupled(s.tables) && Fresh(s, Issuing(id, generation, issuedAt, expiresAt, now))
    ensures Coupled(Issue(s, id, generation, issuedAt, expiresAt, now).0.tables)
  {
    hide Coupled, Compact;
    CompactionDecided(s.tables, now);
    if Issue(s, id, generation, issuedAt, expiresAt, now).1.Ok? {
      KeptIsCoupled(s.tables, now);
      NewOpening(Kept(s.tables, now), id, Opening(generation, expiresAt, Available, false));
    }
  }

  lemma ReserveKeeps(s: Storage, r: Request, now: u64, protector: Protector, drawn: Option<nat>)
    requires Coupled(s.tables)
    ensures Coupled(Reserve(s, r, now, protector, drawn).0.tables)
  {
    hide Coupled, Compact, Clashes, KeysOf, LiveKeys;
    CompactionDecided(s.tables, now);
    var (after, answer) := Reserve(s, r, now, protector, drawn);
    if after.tables != s.tables {
      KeptIsCoupled(s.tables, now);
      if answer.Ok? {
        InsertAttempt(Kept(s.tables, now), drawn.value, r);
      } else {
        SpoilOpening(Kept(s.tables, now), r.invitationId);
      }
    }
  }

  lemma EndKeeps(s: Storage, h: Handle, expected: AttemptState, final: AttemptState, now: u64, protector: Protector)
    requires Coupled(s.tables) && (expected.PendingApproval? || expected.Approved?)
    requires final.Abandoned? || final.Declined?
    ensures Coupled(End(s, h, expected, final, now, protector).0.tables)
  {
    hide PairsOk, OpeningsOk, GenerationsOk, JoinsOk;
    if HandleFits(s.tables, h, expected) {
      assert RowOk(s.tables, h.attempt);
      EndAttempt(s.tables, h.attempt, final, Released(s.tables.openings[h.invitationId], now, protector));
    }
  }

  lemma ApproveKeeps(s: Storage, h: Handle, now: u64, protector: Protector)
    requires Coupled(s.tables)
    ensures Coupled(Approve(s, h, now, protector).0.tables)
  {
    hide PairsOk, OpeningsOk, GenerationsOk, JoinsOk, End;
    EndKeeps(s, h, PendingApproval, Abandoned, now, protector);
    if Approve(s, h, now, protector).1.Ok? {
      assert RowOk(s.tables, h.attempt);
      MoveLive(s.tables, h.attempt, s.tables.attempts[h.attempt].(state := Approved));
    }
  }

  lemma BeginKeeps(s: Storage, h: Handle, transaction: nat, now: u64, protector: Protector)
    requires Coupled(s.tables)
    ensures Coupled(BeginMembership(s, h, transaction, now, protector).0.tables)
  {
    hide PairsOk, OpeningsOk, GenerationsOk, JoinsOk, End;
    EndKeeps(s, h, Approved, Abandoned, now, protector);
    if BeginMembership(s, h, transaction, now, protector).1.Ok? {
      assert RowOk(s.tables, h.attempt);
      MoveLive(s.tables, h.attempt,
               s.tables.attempts[h.attempt].(state := OutcomeUnknown, transaction := Some(transaction)));
    }
  }

  lemma RecoverOutcomeKeeps(s: Storage, attempt: nat, transaction: nat, now: u64, protector: Protector)
    requires Coupled(s.tables)
    ensures Coupled(RecoverOutcome(s, attempt, transaction, now, protector).0.tables)
  {
    hide PairsOk, OpeningsOk, GenerationsOk, JoinsOk;
    var t := s.tables;
    if RecoverOutcome(s, attempt, transaction, now, protector).0 != s {
      assert RowOk(t, attempt);
      UnknownHasNoJoin(t, attempt);
      EndAttempt(t, attempt, Abandoned, Released(t.openings[t.attempts[attempt].request.invitationId], now, protector));
    }
  }

  lemma CommitSeededKeeps(s: Storage, transaction: nat, row: JoinRow, now: u64, fault: PersistenceFault)
    requires Coupled(s.tables)
    ensures Coupled(CommitSeeded(s, transaction, row, now, fault).0.tables)
  {
    hide Coupled, JoinClashes;
    var after := CommitSeeded(s, transaction, row, now, fault).0;
    if after.tables != s.tables {
      OutsideRows(s.tables, after.tables);
    }
  }

  /** Every step, at any clock and with any protector, keeps the tables coupled. */
  lemma NextKeepsCoupled(s: Storage, step: Step)
    requires Coupled(s.tables) && Fresh(s, step)
    ensures Coupled(Next(s, step).tables)
  {
    hide Coupled, Issue, Reserve, End, Approve, BeginMembership, RecoverOutcome, CommitSeeded, JoinClashes;
    match step
    case Issuing(id, generation, issuedAt, expiresAt, now) => IssueKeeps(s, id, generation, issuedAt, expiresAt, now);
    case Loading(id, now, protector) =>
      if Next(s, step) != s {
        SpoilOpening(s.tables, id);
      }
    case Reserving(r, now, protector, drawn) => ReserveKeeps(s, r, now, protector, drawn);
    case Approving(h, now, protector) => ApproveKeeps(s, h, now, protector);
    case Beginning(h, transaction, now, protector) => BeginKeeps(s, h, transaction, now, protector);
    case AbandoningPending(h, now, protector) => EndKeeps(s, h, PendingApproval, Abandoned, now, protector);
    case Declining(h, now, protector) => EndKeeps(s, h, PendingApproval, Declined, now, protector);
    case AbandoningApproved(h, now, protector) => EndKeeps(s, h, Approved, Abandoned, now, protector);
    case RecoveringPre(now, protector) => AbandonAllIsCoupled(s.tables, Stale(s.tables), now, protector);
    case RecoveringOutcome(attempt, transaction, now, protector) =>
      RecoverOutcomeKeeps(s, attempt, transaction, now, protector);
    case CommittingAuthorized(m, row, leaf, now, fault) =>
      if Next(s, step).tables != s.tables {
        CommitJoin(s.tables, m, row, leaf, now);
      }
    case DroppingMembership(m) =>
    case Seeding(id, generation, requestId, expiresAt, now) =>
      if Next(s, step) != s {
        OutsideRows(s.tables, Next(s, step).tables);
      }
    case CommittingSeeded(transaction, row, now, fault) => CommitSeededKeeps(s, transaction, row, now, fault);
    case Reopening(scope) =>
  }

  lemma {:induction false} RunKeepsCoupled(s: Storage, steps: seq<Step>, used: set<nat>)
    requires Coupled(s.tables) && AllFresh(s, steps, used)
    ensures Coupled(Run(s, steps).tables)
    decreases |steps|
  {
    hide Coupled, Next, Fresh;
    if steps != [] {
      NextKeepsCoupled(s, steps[0]);
      RunKeepsCoupled(Next(s, steps[0]), steps[1..], used + Generations(steps[0]));
    }
  }

  /** In every reachable state an opening is Reserved exactly when one and only one live attempt exists. */
  lemma ReachableTablesAreCoupled(policy: Policy, scope: nat, steps: seq<Step>)
    requires AllFresh(Open(policy, scope), steps, {})
    ensures Coupled(Run(Open(policy, scope), steps).tables)
  {
    RunKeepsCoupled(Open(policy, scope), steps, {});
  }
}
