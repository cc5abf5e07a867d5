/** What every run of the inviter store keeps: atomic commits, exact retries, lease fencing, retirement. */
module InviterLaws {
  import opened Common
  import opened WireObjects
  import opened InviterStore

  // ---------- every step keeps the invariant ----------

  lemma MapSizes<K, V>(m: map<K, V>, k: K, v: V)
    ensures k in m ==> |m - {k}| == |m| - 1 && |m[k := v]| == |m|
    ensures k !in m ==> |m[k := v]| == |m| + 1
  {
    if k in m {
      assert m == (m - {k})[k := m[k]];
      assert m[k := v] == (m - {k})[k := v];
    }
  }

  lemma PushKeepsDistinct(queue: seq<(Bytes, Bytes)>, entry: (Bytes, Bytes))
    requires |queue| <= HARD_MAXIMUM_RETIRED_RESERVATIONS && entry !in queue
    requires forall i, k :: 0 <= i < k < |queue| ==> queue[i] != queue[k]
    ensures |Push(queue, entry)| <= HARD_MAXIMUM_RETIRED_RESERVATIONS
    ensures forall i, k :: 0 <= i < k < |Push(queue, entry)| ==> Push(queue, entry)[i] != Push(queue, entry)[k]
    ensures forall e :: e in Push(queue, entry) ==> e in queue || e == entry
  {
    var kept := if |queue| >= HARD_MAXIMUM_RETIRED_RESERVATIONS then queue[1..] else queue;
    assert forall e :: e in kept ==> e in queue;
  }

  lemma RetireKeeps(s: Store, id: Bytes)
    requires RetiredOk(s) && id in s.reservations
    ensures RetiredOk(Retire(s, id))
    ensures forall e :: e in Retire(s, id).retired ==> e in s.retired || e == (id, s.reservations[id].generation)
  {
    PushKeepsDistinct(s.retired, (id, s.reservations[id].generation));
  }

  lemma AdmitKeeps(s: Store, r: ReservedInvitation)
    requires RetiredOk(s) && (r.invitationId, r.generation) !in s.retired
    ensures RetiredOk(Admit(s, r))
  {
  }

  lemma SeedKeepsRetired(s: Store, r: ReservedInvitation, now: u64)
    requires RetiredOk(s) && |s.reservations| <= s.policy.transactions
    ensures RetiredOk(Seed(s, r, now).0) && |Seed(s, r, now).0.reservations| <= s.policy.transactions
  {
    if Seed(s, r, now).1.Ok? {
      var id := r.invitationId;
      var reservation := Reservation(r.generation, r.requestId, r.expiresAt);
      var kept := s;
      if id in s.reservations || |s.reservations| >= s.policy.transactions {
        var victim := if id in s.reservations then id else Oldest(s.reservations, now);
        RetireKeeps(s, victim);
        MapSizes(s.reservations, victim, reservation);
        kept := Retire(s, victim);
      }
      AdmitKeeps(kept, r);
      MapSizes(kept.reservations, id, reservation);
    }
  }

  lemma SeedKeepsIdentities(s: Store, r: ReservedInvitation, now: u64)
    requires IdentitiesOk(Joins(s), s.reservations.Keys)
    ensures IdentitiesOk(Joins(Seed(s, r, now).0), Seed(s, r, now).0.reservations.Keys)
  {
    hide Apart;
    assert Joins(Seed(s, r, now).0) == Joins(s);
  }

  lemma SeedKeepsInv(s: Store, r: ReservedInvitation, now: u64)
    requires Inv(s)
    ensures Inv(Seed(s, r, now).0)
  {
    hide RetiredOk, RecordOk, IdentitiesOk;
    SeedKeepsRetired(s, r, now);
    SeedKeepsIdentities(s, r, now);
  }

  lemma CommitKeepsIdentities(s: Store, c: JoinCommit)
    requires IdentitiesOk(Joins(s), s.reservations.Keys) && c.transactionId !in s.commits
    requires c.join.invitationId in s.reservations && !Replayed(s, c.join)
    ensures IdentitiesOk(Joins(Apply(s, c)), Apply(s, c).reservations.Keys)
  {
    var joins := Joins(s);
    assert Joins(Apply(s, c)) == joins[c.transactionId := c.join];
    forall t | t in joins ensures joins[t].invitationId != c.join.invitationId && joins[t].requestId != c.join.requestId {
      assert t in s.commits;
    }
    var after := joins[c.transactionId := c.join];
    forall t, u ensures Apart(after, t, u) {
      assert Apart(joins, t, u);
    }
  }

  lemma CommitKeepsInv(s: Store, c: JoinCommit, now: u64, fault: CommitFault)
    requires Inv(s)
    ensures Inv(Commit(s, c, now, fault).0)
  {
    hide WelcomeFits, IdentitiesOk;
    if Commit(s, c, now, fault).0 != s {
      CommitKeepsIdentities(s, c);
      MapSizes(s.commits, c.transactionId, Record(c.join, Pending, 0));
      MapSizes(s.reservations, c.join.invitationId, s.reservations[c.join.invitationId]);
    }
  }

  /** Leases, failures and completions touch only one record's outbox and attempts. */
  lemma RecordUpdateKeepsInv(s: Store, t: Bytes, record: Record, nextLease: u64)
    requires Inv(s) && t in s.commits && s.nextLease <= nextLease
    requires record.join == s.commits[t].join && RecordOk(s.policy, nextLease, t, record)
    ensures Inv(s.(nextLease := nextLease, commits := s.commits[t := record]))
  {
    hide IdentitiesOk, RetiredOk;
    var after := s.(nextLease := nextLease, commits := s.commits[t := record]);
    MapSizes(s.commits, t, record);
    SameRetired(s, after);
    assert Joins(after) == Joins(s);
  }

  lemma LeaseKeepsInv(s: Store, t: Bytes, now: u64, seconds: u64)
    requires Inv(s)
    ensures Inv(Lease(s, t, now, seconds).0)
  {
    var after := Lease(s, t, now, seconds).0;
    if after != s {
      RecordUpdateKeepsInv(s, t, after.commits[t], after.nextLease);
    }
  }

  lemma SweepKeepsRecords(s: Store, now: u64)
    requires RecordsOk(s)
    ensures RecordsOk(Sweep(s, now))
  {
  }

  lemma SweepKeepsInv(s: Store, now: u64)
    requires Inv(s)
    ensures Inv(Sweep(s, now))
  {
    hide RecordsOk, IdentitiesOk, RetiredOk;
    SweepKeepsRecords(s, now);
    SameRetired(s, Sweep(s, now));
    assert Sweep(s, now).commits.Keys == s.commits.Keys;
    assert Joins(Sweep(s, now)) == Joins(s);
  }

  lemma SameRetired(s: Store, after: Store)
    requires RetiredOk(s) && after.retired == s.retired && after.reservations == s.reservations
    ensures RetiredOk(after)
  {
  }

  lemma FailKeepsInv(s: Store, lease: DeliveryLease)
    requires Inv(s)
    ensures Inv(Fail(s, lease).0)
  {
    var after := Fail(s, lease).0;
    if after != s {
      RecordUpdateKeepsInv(s, lease.transactionId, after.commits[lease.transactionId], s.nextLease);
    }
  }

  lemma CompleteKeepsInv(s: Store, lease: DeliveryLease, now: u64)
    requires Inv(s)
    ensures Inv(Complete(s, lease, now).0)
  {
    var after := Complete(s, lease, now).0;
    if after != s {
      RecordUpdateKeepsInv(s, lease.transactionId, after.commits[lease.transactionId], s.nextLease);
    }
  }

  /** A lease just taken can be read at once, so handing out never has to give it back. */
  lemma HandOutIsLease(s: Store, t: Bytes, now: u64, seconds: u64)
    ensures var (leased, answer) := Lease(s, t, now, seconds);
            && HandOut(s, t, now, seconds).0 == leased
            && (answer.Ok? ==>
                  && Payload(leased, answer.value, now).Ok?
                  && HandOut(s, t, now, seconds).1
                       == Ok(Some(LeasedWelcome(answer.value, Payload(leased, answer.value, now).value))))
            && (answer.Err? ==> HandOut(s, t, now, seconds).1.Err?)
  {
  }

  lemma LeaseNextKeepsInv(s: Store, now: u64, seconds: u64)
    requires Inv(s)
    ensures Inv(LeaseNext(s, now, seconds).0)
  {
    var swept := Sweep(s, now);
    SweepKeepsInv(s, now);
    if Waiting(swept, now) != {} {
      var t := First(Waiting(swept, now));
      LeaseKeepsInv(swept, t, now, seconds);
      HandOutIsLease(swept, t, now, seconds);
    }
  }

  lemma NextKeepsInv(s: Store, step: Step)
    requires Inv(s)
    ensures Inv(Next(s, step))
  {
    match step
    case Seeding(r, now) => SeedKeepsInv(s, r, now);
    case Committing(c, now, fault) => CommitKeepsInv(s, c, now, fault);
    case Leasing(t, now, seconds) => LeaseKeepsInv(s, t, now, seconds);
    case LeasingNext(now, seconds) => LeaseNextKeepsInv(s, now, seconds);
    case Failing(lease) => FailKeepsInv(s, lease);
    case Completing(lease, now) => CompleteKeepsInv(s, lease, now);
  }

  lemma {:induction false} RunKeepsInv(s: Store, steps: seq<Step>)
    requires Inv(s)
    ensures Inv(Run(s, steps))
    decreases |steps|
  {
    if steps != [] {
      NextKeepsInv(s, steps[0]);
      RunKeepsInv(Next(s, steps[0]), steps[1..]);
    }
  }

  /** The invariant holds in every state a fresh store can reach. */
  lemma ReachableStoresAreSound(policy: Policy, scope: nat, steps: seq<Step>)
    requires policy.Valid()
    ensures Inv(Run(New(policy, scope), steps))
  {
    RunKeepsInv(New(policy, scope), steps);
  }

  // ---------- how one record may change ----------

  function CountFor(issued: seq<DeliveryLease>, t: Bytes): nat {
    if issued == [] then 0
    else (if issued[0].transactionId == t then 1 else 0) + CountFor(issued[1..], t)
  }

  lemma {:induction false} CountForConcat(a: seq<DeliveryLease>, b: seq<DeliveryLease>, t: Bytes)
    ensures CountFor(a + b, t) == CountFor(a, t) + CountFor(b, t)
  {
    if a == [] {
      assert a + b == b;
    } else {
      assert (a + b)[1..] == a[1..] + b;
      CountForConcat(a[1..], b, t);
    }
  }

  lemma CountOne(lease: DeliveryLease, t: Bytes)
    ensures CountFor([lease], t) == if lease.transactionId == t then 1 else 0
  {
    assert [lease][1..] == [];
  }

  /** A record keeps its join, its final states, and any lease number once it has moved past it. */
  predicate Evolves(before: Record, after: Record, nextLease: u64) {
    && after.join == before.join
    && (before.outbox.Delivered? || before.outbox.Exhausted? ==> after == before)
    && (after.outbox.Leased? || after.outbox.Delivered? ==>
          nextLease <= after.outbox.sequence
          || ((before.outbox.Leased? || before.outbox.Delivered?) && before.outbox.sequence == after.outbox.sequence))
  }

  lemma LeaseEvolves(s: Store, t: Bytes, now: u64, seconds: u64, u: Bytes)
    requires Inv(s) && u in s.commits
    ensures var (after, answer) := Lease(s, t, now, seconds);
            && u in after.commits && Evolves(s.commits[u], after.commits[u], s.nextLease)
            && after.commits[u].attempts == s.commits[u].attempts + (if answer.Ok? && t == u then 1 else 0)
            && (answer.Ok? ==> answer.value.transactionId == t)
  {
  }

  lemma SweepEvolves(s: Store, now: u64, u: Bytes)
    requires u in s.commits
    ensures u in Sweep(s, now).commits && Evolves(s.commits[u], Sweep(s, now).commits[u], s.nextLease)
    ensures Sweep(s, now).commits[u].attempts == s.commits[u].attempts && Sweep(s, now).nextLease == s.nextLease
  {
  }

  lemma LeaseNextEvolves(s: Store, now: u64, seconds: u64, u: Bytes)
    requires Inv(s) && u in s.commits
    ensures var after := LeaseNext(s, now, seconds).0;
            && u in after.commits && Evolves(s.commits[u], after.commits[u], s.nextLease)
            && after.commits[u].attempts == s.commits[u].attempts + CountFor(Issued(s, LeasingNext(now, seconds)), u)
  {
    hide Lease, HandOut, Sweep, Waiting, Inv;
    var swept := Sweep(s, now);
    SweepKeepsInv(s, now);
    SweepEvolves(s, now, u);
    if Waiting(swept, now) != {} {
      var t := First(Waiting(swept, now));
      HandOutIsLease(swept, t, now, seconds);
      LeaseEvolves(swept, t, now, seconds, u);
      var answer := Lease(swept, t, now, seconds).1;
      if answer.Ok? {
        CountOne(answer.value, u);
      }
    }
  }

  lemma SeedKeepsCommits(s: Store, r: ReservedInvitation, now: u64)
    ensures Seed(s, r, now).0.commits == s.commits && Seed(s, r, now).0.nextLease == s.nextLease
    ensures Seed(s, r, now).0.policy == s.policy && Seed(s, r, now).0.scope == s.scope
  {
  }

  lemma CommitEvolves(s: Store, c: JoinCommit, now: u64, fault: CommitFault, u: Bytes)
    requires u in s.commits
    ensures u in Commit(s, c, now, fault).0.commits && Commit(s, c, now, fault).0.commits[u] == s.commits[u]
  {
    hide ValidCommit, Replayed;
  }

  lemma ReportEvolves(s: Store, lease: DeliveryLease, now: u64, u: Bytes)
    requires u in s.commits
    ensures forall after | after in {Fail(s, lease).0, Complete(s, lease, now).0} ::
              && u in after.commits && Evolves(s.commits[u], after.commits[u], s.nextLease)
              && after.commits[u].attempts == s.commits[u].attempts
  {
  }

  /** One step: the join and the final states stay, and attempts grow exactly by the leases handed out. */
  lemma NextEvolves(s: Store, step: Step, u: Bytes)
    requires Inv(s) && u in s.commits
    ensures var after := Next(s, step);
            && u in after.commits && Evolves(s.commits[u], after.commits[u], s.nextLease)
            && after.commits[u].attempts == s.commits[u].attempts + CountFor(Issued(s, step), u)
  {
    hide Lease, LeaseNext, Seed, Commit, Fail, Complete, Inv;
    match step
    case Seeding(r, now) => SeedKeepsCommits(s, r, now);
    case Committing(c, now, fault) => CommitEvolves(s, c, now, fault, u);
    case Leasing(t, now, seconds) =>
      LeaseEvolves(s, t, now, seconds, u);
      var answer := Lease(s, t, now, seconds).1;
      if answer.Ok? {
        CountOne(answer.value, u);
      }
    case LeasingNext(now, seconds) => LeaseNextEvolves(s, now, seconds, u);
    case Failing(lease) => ReportEvolves(s, lease, 0, u);
    case Completing(lease, now) => ReportEvolves(s, lease, now, u);
  }

  lemma {:induction false} RunEvolves(s: Store, steps: seq<Step>, u: Bytes)
    requires Inv(s) && u in s.commits
    ensures var after := Run(s, steps);
            && u in after.commits && after.commits[u].join == s.commits[u].join
            && (s.commits[u].outbox.Delivered? || s.commits[u].outbox.Exhausted? ==> after.commits[u] == s.commits[u])
            && after.commits[u].attempts == s.commits[u].attempts + CountFor(IssuedBy(s, steps), u)
    decreases |steps|
  {
    hide Next, Inv, Issued;
    if steps != [] {
      NextKeepsInv(s, steps[0]);
      NextEvolves(s, steps[0], u);
      RunEvolves(Next(s, steps[0]), steps[1..], u);
      CountForConcat(Issued(s, steps[0]), IssuedBy(Next(s, steps[0]), steps[1..]), u);
    }
  }

  // ---------- atomic commit and exact retry ----------

  lemma ApplyAdds(s: Store, c: JoinCommit)
    ensures c.transactionId in Apply(s, c).commits
  {
  }

  /** Every error but the unknown outcome changes nothing; the unknown outcome is a success unheard of. */
  lemma CommitIsAtomic(s: Store, c: JoinCommit, now: u64, fault: CommitFault)
    ensures var (after, answer) := Commit(s, c, now, fault);
            var (clean, verdict) := Commit(s, c, now, NoFault);
            && (answer.Err? && answer.error != OutcomeUnknown ==> after == s)
            && (answer == Err(OutcomeUnknown) <==> fault == AfterCommit && verdict == Ok(Committed))
            && (answer == Ok(Committed) || answer == Err(OutcomeUnknown) ==> after == clean && verdict == Ok(Committed))
            && (after != s <==> verdict == Ok(Committed) && (fault == NoFault || fault == AfterCommit))
  {
    hide ValidCommit, Replayed, Apply;
    if Commit(s, c, now, NoFault).1 == Ok(Committed) {
      ApplyAdds(s, c);
    }
  }

  lemma CommitJoins(s: Store, c: JoinCommit, now: u64, fault: CommitFault)
    requires Commit(s, c, now, fault).0 != s
    ensures ValidCommit(s.policy, c) && c.transactionId !in s.commits
    ensures Joins(Commit(s, c, now, fault).0) == Joins(s)[c.transactionId := c.join]
  {
    hide ValidCommit, Replayed, Joins, Apply;
    AppliedJoins(s, c);
  }

  lemma AppliedJoins(s: Store, c: JoinCommit)
    ensures Joins(Apply(s, c)) == Joins(s)[c.transactionId := c.join]
  {
  }

  /**
   Once a commit took effect, and whatever ran since, the same input is AlreadyCommitted and other
   content under its id is refused, at every time and under every injected fault, changing nothing.
   */
  lemma RetryIsExact(s: Store, c: JoinCommit, now: u64, fault: CommitFault, steps: seq<Step>,
                     other: JoinCommit, later: u64, again: CommitFault)
    requires Inv(s) && other.transactionId == c.transactionId
    requires Commit(s, c, now, fault).1 in {Ok(Committed), Ok(AlreadyCommitted), Err(OutcomeUnknown)}
    ensures var after := Run(Commit(s, c, now, fault).0, steps);
            Commit(after, other, later, again)
            == (after, if other == c then Ok(AlreadyCommitted)
                       else if ValidCommit(s.policy, other) then Err(Conflict)
                       else Err(InvalidInput))
  {
    hide Inv, ValidCommit, Replayed;
    var committed := Commit(s, c, now, fault).0;
    CommitKeepsInv(s, c, now, fault);
    RunEvolves(committed, steps, c.transactionId);
    RunKeepsFixed(committed, steps);
  }

  // ---------- lease fencing ----------

  lemma LeaseIssues(s: Store, t: Bytes, now: u64, seconds: u64)
    ensures var (after, answer) := Lease(s, t, now, seconds);
            && after.policy == s.policy && after.scope == s.scope
            && after.nextLease == s.nextLease + (if answer.Ok? then 1 else 0)
            && (answer.Ok? ==>
                  && answer.value == DeliveryLease(s.scope, t, s.nextLease)
                  && t in s.commits && Live(after, answer.value, now))
  {
  }

  lemma LeaseNextIssues(s: Store, now: u64, seconds: u64)
    ensures var (after, answer) := LeaseNext(s, now, seconds);
            var issued := Issued(s, LeasingNext(now, seconds));
            && after.policy == s.policy && after.scope == s.scope
            && after.nextLease == s.nextLease + |issued| && |issued| <= 1
            && (issued != [] ==>
                  && issued[0].scope == s.scope && issued[0].sequence == s.nextLease
                  && issued[0].transactionId in s.commits && Live(after, issued[0], now))
  {
    hide Lease, HandOut, Live, Waiting;
    var swept := Sweep(s, now);
    assert swept.commits.Keys == s.commits.Keys;
    if Waiting(swept, now) != {} {
      var t := First(Waiting(swept, now));
      HandOutIsLease(swept, t, now, seconds);
      LeaseIssues(swept, t, now, seconds);
      var (leased, answer) := Lease(swept, t, now, seconds);
      if answer.Ok? && LeaseNext(s, now, seconds) == HandOut(swept, t, now, seconds) {
        assert Issued(s, LeasingNext(now, seconds)) == [answer.value];
      }
    }
  }

  /** A step hands out at most one lease, numbered with the next unused number, for a known transaction. */
  lemma NextIssues(s: Store, step: Step)
    ensures var after := Next(s, step);
            var issued := Issued(s, step);
            && after.policy == s.policy && after.scope == s.scope
            && after.nextLease == s.nextLease + |issued| && |issued| <= 1
            && (issued != [] ==>
                  && issued[0].scope == s.scope && issued[0].sequence == s.nextLease
                  && issued[0].transactionId in s.commits && Holds(after, issued[0]))
  {
    hide Lease, LeaseNext, Seed, ValidCommit, Replayed;
    match step
    case Seeding(r, now) => SeedKeepsCommits(s, r, now);
    case Committing(c, now, fault) =>
    case Leasing(t, now, seconds) => LeaseIssues(s, t, now, seconds);
    case LeasingNext(now, seconds) => LeaseNextIssues(s, now, seconds);
    case Failing(lease) =>
    case Completing(lease, now) =>
  }

  lemma {:induction false} RunKeepsFixed(s: Store, steps: seq<Step>)
    ensures Run(s, steps).policy == s.policy && Run(s, steps).scope == s.scope
    ensures Run(s, steps).nextLease == s.nextLease + |IssuedBy(s, steps)|
    decreases |steps|
  {
    hide Next, Issued;
    if steps != [] {
      NextIssues(s, steps[0]);
      RunKeepsFixed(Next(s, steps[0]), steps[1..]);
    }
  }

  /** The k-th lease of a run carries the k-th number from the counter on: no number is ever reused. */
  lemma {:induction false} SequencesAreNeverReused(s: Store, steps: seq<Step>, k: nat)
    requires k < |IssuedBy(s, steps)|
    ensures IssuedBy(s, steps)[k].sequence == s.nextLease + k && IssuedBy(s, steps)[k].scope == s.scope
    decreases |steps|
  {
    hide Next, Issued;
    NextIssues(s, steps[0]);
    var first := Issued(s, steps[0]);
    if k >= |first| {
      SequencesAreNeverReused(Next(s, steps[0]), steps[1..], k - |first|);
    }
  }

  /** A lease number the record has moved past never comes back. */
  lemma {:induction false} LeaseStaysDead(s: Store, steps: seq<Step>, lease: DeliveryLease)
    requires Inv(s) && lease.transactionId in s.commits && lease.sequence < s.nextLease
    requires !Holds(s, lease)
    ensures !Holds(Run(s, steps), lease)
    decreases |steps|
  {
    hide Next, Inv, Issued;
    if steps != [] {
      NextKeepsInv(s, steps[0]);
      NextIssues(s, steps[0]);
      NextEvolves(s, steps[0], lease.transactionId);
      LeaseStaysDead(Next(s, steps[0]), steps[1..], lease);
    }
  }

  /** Any later lease of the same transaction kills an earlier one for good. */
  lemma {:induction false} LaterLeaseKills(s: Store, steps: seq<Step>, lease: DeliveryLease, k: nat)
    requires Inv(s) && lease.transactionId in s.commits && lease.sequence < s.nextLease
    requires k < |IssuedBy(s, steps)| && IssuedBy(s, steps)[k].transactionId == lease.transactionId
    ensures !Holds(Run(s, steps), lease)
    decreases |steps|
  {
    hide Next, Inv, Issued;
    NextKeepsInv(s, steps[0]);
    NextIssues(s, steps[0]);
    NextEvolves(s, steps[0], lease.transactionId);
    var first := Issued(s, steps[0]);
    if k < |first| {
      assert first[k] == IssuedBy(s, steps)[k];
      LeaseStaysDead(Next(s, steps[0]), steps[1..], lease);
    } else {
      LaterLeaseKills(Next(s, steps[0]), steps[1..], lease, k - |first|);
    }
  }

  /**
   In any run, of two leases handed out for one transaction only the later can ever be used again:
   the earlier one can neither read, fail nor complete.
   */
  lemma {:induction false} LeasesAreFenced(s: Store, steps: seq<Step>, i: nat, k: nat, now: u64)
    requires Inv(s) && i < k < |IssuedBy(s, steps)|
    requires IssuedBy(s, steps)[i].transactionId == IssuedBy(s, steps)[k].transactionId
    ensures var after := Run(s, steps);
            var earlier := IssuedBy(s, steps)[i];
            && Payload(after, earlier, now).Err?
            && Fail(after, earlier) == (after, Err(LeaseMismatch))
            && Complete(after, earlier, now) == (after, Err(LeaseMismatch))
    decreases |steps|
  {
    hide Next, Inv, Issued;
    NextKeepsInv(s, steps[0]);
    NextIssues(s, steps[0]);
    var first := Issued(s, steps[0]);
    if i < |first| {
      NextEvolves(s, steps[0], first[0].transactionId);
      LaterLeaseKills(Next(s, steps[0]), steps[1..], first[0], k - |first|);
    } else {
      LeasesAreFenced(Next(s, steps[0]), steps[1..], i - |first|, k - |first|, now);
    }
  }

  /** At any moment at most one lease of a transaction can read or complete, and reading agrees with completing. */
  lemma OneLiveLease(s: Store, a: DeliveryLease, b: DeliveryLease, now: u64)
    requires a.transactionId == b.transactionId
    ensures Payload(s, a, now).Ok? && Payload(s, b, now).Ok? ==> a == b
    ensures Payload(s, a, now).Ok? ==> Complete(s, a, now).1.Ok? && Complete(s, a, now).0 != s
    ensures Complete(s, a, now).0 != s ==> Payload(s, a, now).Ok?
  {
    if Live(s, a, now) {
      assert Complete(s, a, now).0.commits[a.transactionId].outbox == Delivered(a.sequence);
    }
  }

  // ---------- bounded delivery ----------

  function AttemptsOf(s: Store, t: Bytes): nat {
    if t in s.commits then s.commits[t].attempts else 0
  }

  lemma NextAttempts(s: Store, step: Step, t: Bytes)
    requires Inv(s)
    ensures AttemptsOf(Next(s, step), t) == AttemptsOf(s, t) + CountFor(Issued(s, step), t)
  {
    hide Next, Issued, Inv;
    NextIssues(s, step);
    if t in s.commits {
      NextEvolves(s, step, t);
    } else {
      NewRecordsAreUnleased(s, step, t);
      if Issued(s, step) != [] {
        assert Issued(s, step) == [Issued(s, step)[0]];
        CountOne(Issued(s, step)[0], t);
      }
    }
  }

  lemma NewRecordsAreUnleased(s: Store, step: Step, t: Bytes)
    requires t !in s.commits
    ensures AttemptsOf(Next(s, step), t) == 0
  {
    hide Seed, LeaseNext, ValidCommit, Replayed;
    match step
    case Seeding(r, now) => SeedKeepsCommits(s, r, now);
    case LeasingNext(now, seconds) => LeaseNextKeepsKeys(s, now, seconds);
    case _ =>
  }

  lemma LeaseNextKeepsKeys(s: Store, now: u64, seconds: u64)
    ensures LeaseNext(s, now, seconds).0.commits.Keys == s.commits.Keys
  {
    var swept := Sweep(s, now);
    assert swept.commits.Keys == s.commits.Keys;
    if Waiting(swept, now) != {} {
      HandOutIsLease(swept, First(Waiting(swept, now)), now, seconds);
    }
  }

  lemma {:induction false} RunAttempts(s: Store, steps: seq<Step>, t: Bytes)
    requires Inv(s)
    ensures AttemptsOf(Run(s, steps), t) == AttemptsOf(s, t) + CountFor(IssuedBy(s, steps), t)
    decreases |steps|
  {
    hide Next, Inv, Issued, AttemptsOf;
    if steps != [] {
      NextKeepsInv(s, steps[0]);
      NextAttempts(s, steps[0], t);
      RunAttempts(Next(s, steps[0]), steps[1..], t);
      CountForConcat(Issued(s, steps[0]), IssuedBy(Next(s, steps[0]), steps[1..]), t);
    }
  }

  /** Over any run of a fresh store, a transaction is leased at most `deliveryAttempts` times. */
  lemma DeliveryIsBounded(policy: Policy, scope: nat, steps: seq<Step>, t: Bytes)
    requires policy.Valid()
    ensures CountFor(IssuedBy(New(policy, scope), steps), t) == AttemptsOf(Run(New(policy, scope), steps), t)
    ensures CountFor(IssuedBy(New(policy, scope), steps), t) <= policy.deliveryAttempts
  {
    var s := New(policy, scope);
    RunAttempts(s, steps, t);
    RunKeepsInv(s, steps);
    RunKeepsFixed(s, steps);
  }

  // ---------- expiry ----------

  predicate JoinsValid(policy: Policy, joins: map<Bytes, Join>) {
    forall t :: t in joins ==> ValidCommit(policy, JoinCommit(t, joins[t]))
  }

  lemma NextJoins(s: Store, step: Step)
    ensures Joins(Next(s, step)) == Joins(s)
            || (step.Committing? && ValidCommit(s.policy, step.c)
                && Joins(Next(s, step)) == Joins(s)[step.c.transactionId := step.c.join])
  {
    hide ValidCommit, Replayed, Seed, LeaseNext;
    match step
    case Seeding(r, now) => SeedKeepsCommits(s, r, now);
    case Committing(c, now, fault) =>
      if Next(s, step) != s {
        CommitJoins(s, c, now, fault);
      }
    case LeasingNext(now, seconds) => LeaseNextJoins(s, now, seconds);
    case _ => assert Joins(Next(s, step)) == Joins(s);
  }

  lemma LeaseNextJoins(s: Store, now: u64, seconds: u64)
    ensures Joins(LeaseNext(s, now, seconds).0) == Joins(s)
  {
    var swept := Sweep(s, now);
    assert Joins(swept) == Joins(s);
    if Waiting(swept, now) != {} {
      HandOutIsLease(swept, First(Waiting(swept, now)), now, seconds);
      assert Joins(Lease(swept, First(Waiting(swept, now)), now, seconds).0) == Joins(swept);
    }
  }

  lemma {:induction false} RunKeepsJoinsValid(s: Store, steps: seq<Step>)
    requires JoinsValid(s.policy, Joins(s))
    ensures JoinsValid(s.policy, Joins(Run(s, steps)))
    decreases |steps|
  {
    hide ValidCommit, Next, Joins;
    if steps != [] {
      NextJoins(s, steps[0]);
      NextIssues(s, steps[0]);
      RunKeepsJoinsValid(Next(s, steps[0]), steps[1..]);
    }
  }

  /** A live lease ends no later than its outbox, its envelope and its endpoint. */
  lemma LiveLeaseEndsInTime(policy: Policy, scope: nat, steps: seq<Step>, lease: DeliveryLease, now: u64)
    requires policy.Valid() && Live(Run(New(policy, scope), steps), lease, now)
    ensures var record := Run(New(policy, scope), steps).commits[lease.transactionId];
            var envelope := DecodeEnvelope(record.join.welcome);
            var endpoint := DecodeEndpoint(record.join.endpoint);
            && envelope.Ok? && endpoint.Ok?
            && now < record.outbox.expiresAt <= record.join.outboxExpiresAt
            && record.join.outboxExpiresAt <= envelope.value.expiresAt <= endpoint.value.expiresAt
  {
    hide DecodeEnvelope, DecodeEndpoint, Run;
    var s := New(policy, scope);
    RunKeepsInv(s, steps);
    RunKeepsJoinsValid(s, steps);
    var after := Run(s, steps);
    assert lease.transactionId in Joins(after);
  }

  // ---------- the retired window ----------

  function Window(history: seq<(Bytes, Bytes)>): seq<(Bytes, Bytes)> {
    if |history| <= HARD_MAXIMUM_RETIRED_RESERVATIONS then history
    else history[|history| - HARD_MAXIMUM_RETIRED_RESERVATIONS..]
  }

  lemma PushSlidesWindow(history: seq<(Bytes, Bytes)>, entry: (Bytes, Bytes))
    ensures Push(Window(history), entry) == Window(history + [entry])
  {
    if |history| >= HARD_MAXIMUM_RETIRED_RESERVATIONS {
      var cut := |history| - HARD_MAXIMUM_RETIRED_RESERVATIONS;
      assert history[cut..][1..] == history[cut + 1..];
      assert (history + [entry])[cut + 1..] == history[cut + 1..] + [entry];
    }
  }

  lemma NextRetires(s: Store, step: Step)
    ensures var gone := Retirements(s, step);
            && |gone| <= 1
            && Next(s, step).retired == (if gone == [] then s.retired else Push(s.retired, gone[0]))
  {
    hide ValidCommit, Replayed, LeaseNext;
    if step.LeasingNext? {
      LeaseNextKeepsRetired(s, step.now, step.seconds);
    }
  }

  lemma LeaseNextKeepsRetired(s: Store, now: u64, seconds: u64)
    ensures LeaseNext(s, now, seconds).0.retired == s.retired
    ensures LeaseNext(s, now, seconds).0.reservations == s.reservations
  {
    var swept := Sweep(s, now);
    if Waiting(swept, now) != {} {
      HandOutIsLease(swept, First(Waiting(swept, now)), now, seconds);
    }
  }

  lemma {:induction false} RunRetires(s: Store, steps: seq<Step>, history: seq<(Bytes, Bytes)>)
    requires s.retired == Window(history)
    ensures Run(s, steps).retired == Window(history + RetiredBy(s, steps))
    decreases |steps|
  {
    hide Next, Retirements, Window, Push;
    if steps == [] {
      assert history + RetiredBy(s, steps) == history;
    } else {
      NextRetires(s, steps[0]);
      var gone := Retirements(s, steps[0]);
      var rest := RetiredBy(Next(s, steps[0]), steps[1..]);
      if gone != [] {
        assert gone == [gone[0]];
        PushSlidesWindow(history, gone[0]);
      } else {
        assert history + gone == history;
      }
      RunRetires(Next(s, steps[0]), steps[1..], history + gone);
      assert (history + gone) + rest == history + (gone + rest);
    }
  }

  /** The retired queue of a fresh store is always the last 4096 retirements, in order. */
  lemma RetiredIsRecentHistory(policy: Policy, scope: nat, steps: seq<Step>)
    ensures Run(New(policy, scope), steps).retired == Window(RetiredBy(New(policy, scope), steps))
  {
    var none: seq<(Bytes, Bytes)> := [];
    RunRetires(New(policy, scope), steps, none);
    assert none + RetiredBy(New(policy, scope), steps) == RetiredBy(New(policy, scope), steps);
  }

  /**
   A successful seeding keeps every other reservation except possibly one expired one: its own
   predecessor, or, in a full store, the one with the least (expiry, id) among the expired.
   */
  lemma SeedEvictsOnlyExpired(s: Store, r: ReservedInvitation, now: u64, id: Bytes)
    requires Inv(s) && id in s.reservations && id != r.invitationId
    ensures var (after, answer) := Seed(s, r, now);
            && (answer.Ok? ==> r.invitationId in after.reservations && r.expiresAt > now)
            && (id in after.reservations ==> after.reservations[id] == s.reservations[id])
            && (id !in after.reservations <==>
                  && answer.Ok? && r.invitationId !in s.reservations
                  && |s.reservations| == s.policy.transactions
                  && IsOldest(s.reservations, now, s.reservations.Keys, id))
  {
    hide IdentitiesOk, RetiredOk, RecordsOk;
    if Seed(s, r, now).1.Ok? && IsOldest(s.reservations, now, s.reservations.Keys, id) {
      OldestIsUnique(s.reservations, now, s.reservations.Keys, id, Oldest(s.reservations, now));
    }
  }

  // ---------- what the port answers ----------

  lemma SweepKeepsWaiting(s: Store, now: u64)
    ensures Waiting(Sweep(s, now), now) == Waiting(s, now)
  {
  }

  /**
   Well-formed requests lease the first waiting transaction with its committed bytes, answer None when
   nothing waits, and refuse exactly when that first lease does not fit before its outbox expiry or the
   lease counter is used up.
   */
  lemma LeaseNextAnswers(s: Store, now: u64, seconds: u64)
    requires Inv(s) && 0 < seconds <= s.policy.leaseSeconds && now + seconds < U64_LIMIT
    ensures var answer := LeaseNext(s, now, seconds).1;
            if Waiting(s, now) == {} then answer == Ok(None)
            else
              var t := First(Waiting(s, now));
              var join := s.commits[t].join;
              if now + seconds <= join.outboxExpiresAt && s.nextLease + 1 < U64_LIMIT then
                answer == Ok(Some(LeasedWelcome(
                                    DeliveryLease(s.scope, t, s.nextLease),
                                    DeliveryPayload(join.welcome, join.endpoint, join.outboxExpiresAt))))
              else answer == Err(PortConflict)
  {
    hide IdentitiesOk, RetiredOk;
    var swept := Sweep(s, now);
    SweepKeepsWaiting(s, now);
    if Waiting(s, now) != {} {
      var t := First(Waiting(s, now));
      assert swept.commits[t] == s.commits[t];
      HandOutIsLease(swept, t, now, seconds);
    }
  }
}
