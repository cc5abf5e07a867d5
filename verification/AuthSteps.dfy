/** Every step of the authorization lifecycle keeps the tables coupled. */
module AuthSteps {
  import opened Common
  import opened AuthTables
  import opened Authorization
  import opened AuthInvariant

  // ---------- single changes ----------

  predicate GenerationUnused(t: Tables, generation: nat) {
    && (forall k :: k in t.openings ==> t.openings[k].generation != generation)
    && (forall u :: u in t.joins ==> t.joins[u].generation != generation)
  }

  lemma NewOpening(t: Tables, id: nat, o: Opening)
    requires Coupled(t) && id !in t.openings && id != 0 && o.generation != 0
    requires GenerationUnused(t, o.generation) && o.state.Available? && !o.erased
    ensures Coupled(SetOpening(t, id, o))
  {
    hide PairsOk;
    var after := SetOpening(t, id, o);
    forall key | key in after.attempts ensures RowOk(after, key) {
      assert RowOk(t, key);
    }
    forall i | i in after.openings ensures OpeningOk(after, i) {
      OpeningCarries(t, after, i);
    }
    forall i, j ensures GenerationsApart(after.openings, i, j) {
      assert GenerationsApart(t.openings, i, j);
    }
    forall u | u in after.joins ensures JoinOk(after, u) {
      assert JoinOk(t, u);
      JoinCarries(t, after, u);
    }
  }

  /** Witnesses survive while the attempts they point at do. */
  lemma OpeningCarries(t: Tables, after: Tables, id: nat)
    requires OpeningsOk(t) && after.attempts == t.attempts && id in after.openings
    requires id in t.openings ==> after.openings[id] == t.openings[id]
    requires id !in t.openings ==>
               id != 0 && after.openings[id].generation != 0
               && after.openings[id].state.Available? && !after.openings[id].erased
    ensures OpeningOk(after, id)
  {
    if id in t.openings {
      assert OpeningOk(t, id);
      var o := t.openings[id];
      if o.state.Reserved? {
        var key :| LiveFor(t, id, key);
        assert LiveFor(after, id, key);
      }
      if o.state.Consumed? {
        var key :| CommittedFor(t, id, key);
        assert CommittedFor(after, id, key);
      }
    }
  }

  lemma JoinCarries(t: Tables, after: Tables, u: nat)
    requires u in t.joins && u in after.joins && t.joins[u] == after.joins[u] && JoinOk(t, u)
    requires HasOpening(after, t.joins[u].invitationId, t.joins[u].generation)
             ==> HasOpening(t, t.joins[u].invitationId, t.joins[u].generation)
    requires forall key :: key in t.attempts && t.attempts[key].state.Committed? ==>
               key in after.attempts && after.attempts[key] == t.attempts[key]
    ensures JoinOk(after, u)
  {
    if HasOpening(after, t.joins[u].invitationId, t.joins[u].generation) {
      var key :| CommittedAs(t, u, key);
      assert CommittedAs(after, u, key);
    }
  }

  /** An Available opening becomes Unusable. */
  lemma SpoilOpening(t: Tables, id: nat)
    requires Coupled(t) && id in t.openings && t.openings[id].state.Available?
    ensures Coupled(SetOpening(t, id, Erase(t.openings[id], Unusable)))
  {
    hide PairsOk;
    var after := SetOpening(t, id, Erase(t.openings[id], Unusable));
    forall key | key in after.attempts ensures RowOk(after, key) {
      assert RowOk(t, key);
    }
    forall i | i in after.openings ensures OpeningOk(after, i) {
      assert OpeningOk(t, i);
      if i != id {
        OpeningCarries(t, after, i);
      }
    }
    forall i, j ensures GenerationsApart(after.openings, i, j) {
      assert GenerationsApart(t.openings, i, j);
    }
    forall u | u in after.joins ensures JoinOk(after, u) {
      assert JoinOk(t, u);
      JoinCarries(t, after, u);
    }
  }

  function WithReserved(t: Tables, key: nat, r: Request): Tables
    requires r.invitationId in t.openings
  {
    SetOpening(t.(attempts := t.attempts[key := Attempt(r, PendingApproval, None)]), r.invitationId,
               t.openings[r.invitationId].(state := Reserved))
  }

  lemma InsertPairs(attempts: map<nat, Attempt>, key: nat, a: Attempt)
    requires PairsOk(attempts) && key !in attempts && a.transaction.None?
    requires forall k :: k in attempts ==> !ClashesWith(attempts[k], a.request)
    requires forall k :: k in attempts && attempts[k].request.invitationId == a.request.invitationId ==>
               !Live(attempts[k].state) && !attempts[k].state.Committed?
    ensures PairsOk(attempts[key := a])
  {
    var after := attempts[key := a];
    forall k, l ensures PairOk(after, k, l) {
      assert PairOk(attempts, k, l);
    }
  }

  lemma InsertAttempt(t: Tables, key: nat, r: Request)
    requires Coupled(t) && key !in t.attempts && key != 0 && r.Valid() && !Clashes(t, r)
    requires HasOpening(t, r.invitationId, r.generation) && t.openings[r.invitationId].state.Available?
    requires t.openings[r.invitationId].expiresAt == r.invitationExpiresAt
    ensures Coupled(WithReserved(t, key, r))
  {
    hide PairsOk;
    var id := r.invitationId;
    var after := WithReserved(t, key, r);
    forall k | k in t.attempts ensures RowOk(t, k) && (k in after.attempts ==> RowOk(after, k)) {
    }
    InsertPairs(t.attempts, key, Attempt(r, PendingApproval, None));
    forall i | i in after.openings ensures OpeningOk(after, i) {
      assert OpeningOk(t, i);
      if i == id {
        assert LiveFor(after, id, key);
      } else {
        OpeningKeepsWitness(t, after, i);
      }
    }
    forall i, j ensures GenerationsApart(after.openings, i, j) {
      assert GenerationsApart(t.openings, i, j);
    }
    forall u | u in after.joins ensures JoinOk(after, u) {
      assert JoinOk(t, u);
      JoinCarries(t, after, u);
    }
  }

  lemma OpeningKeepsWitness(t: Tables, after: Tables, id: nat)
    requires id in t.openings && id in after.openings && after.openings[id] == t.openings[id] && OpeningOk(t, id)
    requires forall key :: key in t.attempts && t.attempts[key].request.invitationId == id ==>
               key in after.attempts && after.attempts[key] == t.attempts[key]
    ensures OpeningOk(after, id)
  {
    var o := t.openings[id];
    if o.state.Reserved? {
      var key :| LiveFor(t, id, key);
      assert LiveFor(after, id, key);
    }
    if o.state.Consumed? {
      var key :| CommittedFor(t, id, key);
      assert CommittedFor(after, id, key);
    }
  }

  function WithAttempt(t: Tables, key: nat, a: Attempt): Tables {
    t.(attempts := t.attempts[key := a])
  }

  lemma ReplacePairs(attempts: map<nat, Attempt>, key: nat, a: Attempt)
    requires PairsOk(attempts) && key in attempts && a.request == attempts[key].request
    requires Live(attempts[key].state)
    requires a.transaction == attempts[key].transaction
             || forall k :: k in attempts ==> attempts[k].transaction != a.transaction
    requires a.state.Committed? ==>
               forall k :: k in attempts && attempts[k].request.invitationId == a.request.invitationId ==>
                 !attempts[k].state.Committed?
    ensures PairsOk(attempts[key := a])
  {
    var after := attempts[key := a];
    forall k, l ensures PairOk(after, k, l) {
      assert PairOk(attempts, k, l);
    }
  }

  /** A live attempt moves on and stays live: approval, or the start of membership. */
  lemma MoveLive(t: Tables, key: nat, a: Attempt)
    requires Coupled(t) && key in t.attempts && Live(t.attempts[key].state) && Live(a.state)
    requires a.request == t.attempts[key].request && TransactionFits(a)
    requires a.transaction == t.attempts[key].transaction
             || forall k :: k in t.attempts ==> t.attempts[k].transaction != a.transaction
    ensures Coupled(WithAttempt(t, key, a))
  {
    hide PairsOk, GenerationsOk;
    var after := WithAttempt(t, key, a);
    ReplacePairs(t.attempts, key, a);
    forall k | k in after.attempts ensures RowOk(after, k) {
      assert RowOk(t, k);
    }
    MovedOpenings(t, key, a);
    forall u | u in after.joins ensures JoinOk(after, u) {
      assert JoinOk(t, u);
      JoinCarries(t, after, u);
    }
  }

  lemma MovedOpenings(t: Tables, key: nat, a: Attempt)
    requires RowsOk(t) && OpeningsOk(t) && key in t.attempts && Live(t.attempts[key].state) && Live(a.state)
    requires a.request == t.attempts[key].request
    ensures OpeningsOk(WithAttempt(t, key, a))
  {
    var after := WithAttempt(t, key, a);
    forall i | i in after.openings ensures OpeningOk(after, i) {
      assert OpeningOk(t, i);
      if i == a.request.invitationId {
        assert LiveFor(after, i, key);
        assert RowOk(t, key);
      } else {
        OpeningKeepsWitness(t, after, i);
      }
    }
  }

  function Ended(t: Tables, key: nat, final: AttemptState, o: Opening): Tables
    requires key in t.attempts
  {
    SetOpening(SetAttempt(t, key, final), t.attempts[key].request.invitationId, o)
  }

  predicate Frees(was: Opening, o: Opening) {
    o == was.(state := Available) || o == Erase(was, Unusable)
  }

  lemma EndRows(t: Tables, key: nat, final: AttemptState, o: Opening)
    requires Coupled(t) && key in t.attempts && Live(t.attempts[key].state)
    requires final.Abandoned? || (final.Declined? && t.attempts[key].transaction.None?)
    requires t.attempts[key].request.invitationId in t.openings
    requires Frees(t.openings[t.attempts[key].request.invitationId], o)
    ensures RowsOk(Ended(t, key, final, o)) && PairsOk(Ended(t, key, final, o).attempts)
  {
    hide PairsOk, OpeningsOk, GenerationsOk, JoinsOk;
    var after := Ended(t, key, final, o);
    assert RowOk(t, key);
    ReplacePairs(t.attempts, key, t.attempts[key].(state := final));
    forall k | k in after.attempts ensures RowOk(after, k) {
      assert RowOk(t, k);
      LiveAlone(t, key, k);
    }
  }

  /** A live attempt ends without membership and its opening stops being Reserved. */
  lemma EndAttempt(t: Tables, key: nat, final: AttemptState, o: Opening)
    requires Coupled(t) && key in t.attempts && Live(t.attempts[key].state)
    requires final.Abandoned? || (final.Declined? && t.attempts[key].transaction.None?)
    requires t.attempts[key].request.invitationId in t.openings
    requires Frees(t.openings[t.attempts[key].request.invitationId], o)
    ensures Coupled(Ended(t, key, final, o))
  {
    hide PairsOk, RowsOk;
    var id := t.attempts[key].request.invitationId;
    var after := Ended(t, key, final, o);
    EndRows(t, key, final, o);
    ReservedOf(t, key);
    forall i | i in after.openings ensures OpeningOk(after, i) {
      assert OpeningOk(t, i);
      if i != id {
        OpeningKeepsWitness(t, after, i);
      }
    }
    forall i, j ensures GenerationsApart(after.openings, i, j) {
      assert GenerationsApart(t.openings, i, j);
    }
    forall u | u in after.joins ensures JoinOk(after, u) {
      assert JoinOk(t, u);
      JoinCarries(t, after, u);
    }
  }

  lemma ReservedOf(t: Tables, key: nat)
    requires RowsOk(t) && key in t.attempts && Live(t.attempts[key].state)
    ensures t.attempts[key].request.invitationId in t.openings
    ensures t.openings[t.attempts[key].request.invitationId].state.Reserved?
  {
    assert RowOk(t, key);
  }

  lemma LiveAlone(t: Tables, key: nat, other: nat)
    requires Coupled(t) && key in t.attempts && other in t.attempts && Live(t.attempts[key].state)
    ensures other != key && t.attempts[other].request.invitationId == t.attempts[key].request.invitationId ==>
              !Live(t.attempts[other].state) && !t.attempts[other].state.Committed?
  {
    assert PairOk(t.attempts, key, other);
    assert RowOk(t, key) && RowOk(t, other);
  }

  /** Unknown outcomes never have their join row already: commit writes both or neither. */
  lemma UnknownHasNoJoin(t: Tables, key: nat)
    requires Coupled(t) && key in t.attempts && t.attempts[key].state.OutcomeUnknown?
    ensures var a := t.attempts[key];
            a.transaction.Some? && (a.transaction.value in t.joins ==> !Agrees(t.joins[a.transaction.value], a.request))
  {
    hide PairsOk;
    var a := t.attempts[key];
    assert RowOk(t, key);
    var u := a.transaction.value;
    if u in t.joins && Agrees(t.joins[u], a.request) {
      assert JoinOk(t, u);
      var other :| CommittedAs(t, u, other);
      TransactionsDiffer(t.attempts, other, key);
    }
  }

  lemma TransactionsDiffer(attempts: map<nat, Attempt>, k: nat, l: nat)
    requires PairsOk(attempts) && k in attempts && l in attempts && k != l && attempts[k].transaction.Some?
    ensures attempts[k].transaction != attempts[l].transaction
  {
    assert PairOk(attempts, k, l);
  }

  lemma CommitRows(t: Tables, m: Membership, row: JoinRow, leaf: nat, now: u64)
    requires Coupled(t) && Authorizes(t, m, row, leaf, now)
    requires row.invitationId !in t.reservations && !JoinClashes(t, m.transaction, row)
    ensures RowsOk(AuthorizedTables(t, m, row)) && PairsOk(AuthorizedTables(t, m, row).attempts)
  {
    hide PairsOk, OpeningsOk, GenerationsOk, JoinsOk;
    var after := AuthorizedTables(t, m, row);
    forall k | k in t.attempts
      ensures t.attempts[k].request.invitationId == row.invitationId ==> !t.attempts[k].state.Committed?
    {
      assert RowOk(t, k);
    }
    ReplacePairs(t.attempts, m.attempt, after.attempts[m.attempt]);
    forall k | k in after.attempts ensures RowOk(after, k) {
      assert RowOk(t, k);
      if k != m.attempt && t.attempts[k].request.invitationId == row.invitationId {
        LiveAlone(t, m.attempt, k);
      }
    }
  }

  lemma CommitOpenings(t: Tables, m: Membership, row: JoinRow, leaf: nat, now: u64)
    requires Coupled(t) && Authorizes(t, m, row, leaf, now)
    requires row.invitationId !in t.reservations && !JoinClashes(t, m.transaction, row)
    ensures var after := AuthorizedTables(t, m, row);
            OpeningsOk(after) && GenerationsOk(after.openings) && JoinsOk(after)
  {
    hide PairsOk, RowsOk;
    var after := AuthorizedTables(t, m, row);
    forall i | i in after.openings ensures OpeningOk(after, i) {
      assert OpeningOk(t, i);
      if i == row.invitationId {
        assert CommittedFor(after, i, m.attempt);
      } else {
        OpeningKeepsWitness(t, after, i);
      }
    }
    forall i, j ensures GenerationsApart(after.openings, i, j) {
      assert GenerationsApart(t.openings, i, j);
    }
    forall u | u in after.joins ensures JoinOk(after, u) {
      if u == m.transaction {
        assert CommittedAs(after, u, m.attempt);
      } else {
        assert JoinOk(t, u);
        JoinCarries(t, after, u);
      }
    }
  }

  lemma CommitJoin(t: Tables, m: Membership, row: JoinRow, leaf: nat, now: u64)
    requires Coupled(t) && Authorizes(t, m, row, leaf, now)
    requires row.invitationId !in t.reservations && !JoinClashes(t, m.transaction, row)
    ensures Coupled(AuthorizedTables(t, m, row))
  {
    CommitRows(t, m, row, leaf, now);
    CommitOpenings(t, m, row, leaf, now);
  }

  /** Changes to joins and reservations alone. */
  lemma OutsideRows(t: Tables, after: Tables)
    requires Coupled(t) && after.openings == t.openings && after.attempts == t.attempts
    requires forall u :: u in t.joins ==> u in after.joins && after.joins[u] == t.joins[u]
    requires forall u :: u in after.joins && u !in t.joins ==>
               !HasOpening(t, after.joins[u].invitationId, after.joins[u].generation)
    requires forall i :: i in t.reservations && t.reservations[i].consumed ==>
               i in after.reservations && after.reservations[i] == t.reservations[i]
    ensures Coupled(after)
  {
    hide PairsOk, GenerationsOk;
    forall key | key in after.attempts ensures RowOk(after, key) {
      assert RowOk(t, key);
    }
    forall i | i in after.openings ensures OpeningOk(after, i) {
      assert OpeningOk(t, i);
      OpeningKeepsWitness(t, after, i);
    }
    forall u | u in after.joins ensures JoinOk(after, u) {
      if u in t.joins {
        assert JoinOk(t, u);
        JoinCarries(t, after, u);
      }
    }
  }
}
