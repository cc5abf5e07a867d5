/** The coupling of the authorization tables, and what compaction does to tables that satisfy it. */
module AuthInvariant {
  import opened Common
  import opened AuthTables
  import opened Authorization

  // ---------- one row ----------

  /** Whether the transaction column may hold this value in this state. */
  predicate TransactionFits(a: Attempt) {
    && (a.state.PendingApproval? || a.state.Approved? || a.state.Declined? ==> a.transaction.None?)
    && (a.state.OutcomeUnknown? || a.state.Committed? ==> a.transaction.Some?)
    && (a.transaction.Some? ==> a.transaction.value != 0)
  }

  /** The join and consumed reservation that a committed attempt stands for. */
  predicate ResultStored(t: Tables, a: Attempt) {
    && a.transaction.Some? && a.transaction.value in t.joins
    && Agrees(t.joins[a.transaction.value], a.request)
    && a.request.invitationId in t.reservations
    && var r := t.reservations[a.request.invitationId];
       r.generation == a.request.generation && r.requestId == a.request.requestId && r.consumed
  }

  /** An attempt belongs to its opening row: same generation and expiry, Reserved while it lives. */
  predicate RowOk(t: Tables, key: nat)
    requires key in t.attempts
  {
    var a := t.attempts[key];
    && key != 0 && a.request.Valid() && TransactionFits(a)
    && HasOpening(t, a.request.invitationId, a.request.generation)
    && var o := t.openings[a.request.invitationId];
       && o.expiresAt == a.request.invitationExpiresAt
       && (Live(a.state) ==> o.state.Reserved?)
       && (a.state.Committed? ==> o.state.Consumed? && ResultStored(t, a))
  }

  predicate RowsOk(t: Tables) {
    forall key :: key in t.attempts ==> RowOk(t, key)
  }

  /** Two attempts never share a unique column, a live opening or a consumed one. */
  predicate PairOk(attempts: map<nat, Attempt>, k: nat, l: nat) {
    k in attempts && l in attempts && k != l ==>
      var a := attempts[k];
      var b := attempts[l];
      && !ClashesWith(a, b.request)
      && (a.transaction.Some? ==> a.transaction != b.transaction)
      && (a.request.invitationId == b.request.invitationId ==>
            !(Live(a.state) && Live(b.state)) && !(a.state.Committed? && b.state.Committed?))
  }

  ghost predicate PairsOk(attempts: map<nat, Attempt>) {
    forall k, l :: PairOk(attempts, k, l)
  }

  predicate LiveFor(t: Tables, id: nat, key: nat) {
    key in t.attempts && t.attempts[key].request.invitationId == id && Live(t.attempts[key].state)
  }

  predicate CommittedFor(t: Tables, id: nat, key: nat) {
    key in t.attempts && t.attempts[key].request.invitationId == id && t.attempts[key].state.Committed?
  }

  ghost predicate OpeningOk(t: Tables, id: nat)
    requires id in t.openings
  {
    var o := t.openings[id];
    && id != 0 && o.generation != 0
    && (o.erased <==> o.state.Consumed? || o.state.Unusable?)
    && (o.state.Reserved? ==> exists key :: LiveFor(t, id, key))
    && (o.state.Consumed? ==> exists key :: CommittedFor(t, id, key))
  }

  ghost predicate OpeningsOk(t: Tables) {
    forall id :: id in t.openings ==> OpeningOk(t, id)
  }

  predicate GenerationsApart(openings: map<nat, Opening>, i: nat, j: nat) {
    i in openings && j in openings && i != j ==> openings[i].generation != openings[j].generation
  }

  ghost predicate GenerationsOk(openings: map<nat, Opening>) {
    forall i, j :: GenerationsApart(openings, i, j)
  }

  predicate CommittedAs(t: Tables, transaction: nat, key: nat) {
    && key in t.attempts && t.attempts[key].state.Committed?
    && t.attempts[key].transaction == Some(transaction)
  }

  /** A join for an invitation generation that is still open was committed by an attempt that says so. */
  ghost predicate JoinOk(t: Tables, transaction: nat)
    requires transaction in t.joins
  {
    HasOpening(t, t.joins[transaction].invitationId, t.joins[transaction].generation) ==>
      exists key :: CommittedAs(t, transaction, key)
  }

  ghost predicate JoinsOk(t: Tables) {
    forall transaction :: transaction in t.joins ==> JoinOk(t, transaction)
  }

  /** The coupling of the four tables. */
  ghost predicate Coupled(t: Tables) {
    RowsOk(t) && PairsOk(t.attempts) && OpeningsOk(t) && GenerationsOk(t.openings) && JoinsOk(t)
  }

  /** Reserved exactly when one and only one live attempt exists. */
  lemma ReservedMeansOneLive(t: Tables, id: nat)
    requires Coupled(t) && id in t.openings
    ensures t.openings[id].state.Reserved? <==> exists key :: LiveFor(t, id, key)
    ensures forall k, l :: LiveFor(t, id, k) && LiveFor(t, id, l) ==> k == l
  {
    forall key | LiveFor(t, id, key) ensures t.openings[id].state.Reserved? {
      assert RowOk(t, key);
    }
    forall k, l | LiveFor(t, id, k) && LiveFor(t, id, l) ensures k == l {
      assert PairOk(t.attempts, k, l);
    }
    assert OpeningOk(t, id);
  }

  /** A generation is consumed by at most one transaction. */
  lemma ConsumedOnce(t: Tables, id: nat, k: nat, l: nat)
    requires Coupled(t) && CommittedFor(t, id, k) && CommittedFor(t, id, l)
    ensures k == l
  {
    assert PairOk(t.attempts, k, l);
  }

  // ---------- compaction ----------

  /** The rows compaction keeps, said at once. */
  function Kept(t: Tables, now: u64): Tables {
    t.(attempts := map key | key in t.attempts && !TerminalBy(t.attempts[key], now) :: t.attempts[key],
       openings := map id | id in t.openings && (t.openings[id].expiresAt > now || t.openings[id].state.Reserved?)
                   :: t.openings[id])
  }

  predicate AnyStuck(t: Tables, now: u64) {
    exists id :: id in t.openings && StuckReserved(t, id, now)
  }

  lemma StuckBlocks(t: Tables, now: u64, id: nat)
    requires Coupled(t) && id in t.openings && StuckReserved(t, id, now)
    ensures Compact(t, now).None?
  {
    assert OpeningOk(t, id);
    var key :| LiveFor(t, id, key);
    var first := RetireReserved(t, now);
    assert first.openings[id] == Erase(t.openings[id], Unusable);
    var last := RetireAvailable(DropTerminal(first, now), now);
    assert key in last.attempts && last.attempts[key].request.invitationId == id;
    assert Doomed(last.openings[id], now);
  }

  lemma UnstuckKeeps(t: Tables, now: u64)
    requires Coupled(t) && !AnyStuck(t, now)
    ensures Compact(t, now) == Some(Kept(t, now))
  {
    hide StuckReserved, PairsOk, OpeningsOk, GenerationsOk, JoinsOk;
    var first := RetireReserved(t, now);
    assert first.openings == t.openings;
    assert first == t;
    var last := RetireAvailable(DropTerminal(t, now), now);
    forall key | key in last.attempts ensures !Doomed(last.openings[last.attempts[key].request.invitationId], now) {
      assert RowOk(t, key);
    }
    assert DropOpenings(last, now).Some?;
    assert DropOpenings(last, now).value.openings == Kept(t, now).openings;
  }

  /**
   Compaction fails exactly when some expired Reserved opening also has an expired terminal attempt:
   then its live attempt still references the row to delete. Otherwise it keeps precisely the live or
   unexpired attempts and the Reserved or unexpired openings.
   */
  lemma CompactionDecided(t: Tables, now: u64)
    requires Coupled(t)
    ensures Compact(t, now) == if AnyStuck(t, now) then None else Some(Kept(t, now))
  {
    hide Coupled, Compact, Kept, StuckReserved;
    if AnyStuck(t, now) {
      var id :| id in t.openings && StuckReserved(t, id, now);
      StuckBlocks(t, now, id);
    } else {
      UnstuckKeeps(t, now);
    }
  }

  /** Compaction is only ever blocked by a live attempt that has itself expired; with none it always succeeds. */
  lemma BlockedByExpiredLive(t: Tables, now: u64) returns (key: nat)
    requires Coupled(t) && Compact(t, now).None?
    ensures key in t.attempts && Live(t.attempts[key].state) && t.attempts[key].request.invitationExpiresAt <= now
  {
    hide Compact, PairsOk, GenerationsOk, JoinsOk;
    CompactionDecided(t, now);
    var id :| id in t.openings && StuckReserved(t, id, now);
    assert OpeningOk(t, id);
    key :| LiveFor(t, id, key);
    assert RowOk(t, key);
  }

  lemma KeptRows(t: Tables, now: u64)
    requires Coupled(t)
    ensures RowsOk(Kept(t, now)) && PairsOk(Kept(t, now).attempts)
  {
    hide OpeningsOk, GenerationsOk, JoinsOk;
    var after := Kept(t, now);
    forall key | key in after.attempts ensures RowOk(after, key) {
      assert RowOk(t, key);
    }
    forall k, l ensures PairOk(after.attempts, k, l) {
      assert PairOk(t.attempts, k, l);
    }
  }

  lemma KeptOpenings(t: Tables, now: u64)
    requires Coupled(t)
    ensures OpeningsOk(Kept(t, now)) && GenerationsOk(Kept(t, now).openings)
  {
    hide JoinsOk, PairsOk;
    var after := Kept(t, now);
    forall id | id in after.openings ensures OpeningOk(after, id) {
      assert OpeningOk(t, id);
      var o := t.openings[id];
      if o.state.Reserved? {
        var key :| LiveFor(t, id, key);
        assert LiveFor(after, id, key);
      }
      if o.state.Consumed? {
        var key :| CommittedFor(t, id, key);
        assert RowOk(t, key);
        assert CommittedFor(after, id, key);
      }
    }
    forall i, j ensures GenerationsApart(after.openings, i, j) {
      assert GenerationsApart(t.openings, i, j);
    }
  }

  lemma KeptJoins(t: Tables, now: u64)
    requires Coupled(t)
    ensures JoinsOk(Kept(t, now))
  {
    hide PairsOk, OpeningsOk, GenerationsOk;
    var after := Kept(t, now);
    forall u | u in after.joins ensures JoinOk(after, u) {
      assert JoinOk(t, u);
      var row := t.joins[u];
      if HasOpening(after, row.invitationId, row.generation) {
        var key :| CommittedAs(t, u, key);
        assert RowOk(t, key);
        assert CommittedAs(after, u, key);
      }
    }
  }

  /** Compaction keeps the coupling, at any clock. */
  lemma KeptIsCoupled(t: Tables, now: u64)
    requires Coupled(t)
    ensures Coupled(Kept(t, now))
  {
    KeptRows(t, now);
    KeptOpenings(t, now);
    KeptJoins(t, now);
  }
}
