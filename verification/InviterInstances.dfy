/** A run of the inviter's store after which the first waiting Welcome hides a later one that could be leased. */
module InviterInstances {
  import opened Common
  import opened WireObjects
  import opened InviterStore
  import opened InviterLaws

  const POLICY := Policy(4, 16, 16, 16, 65536, 4096, 3, 600)

  function Id(mark: byte): Bytes {
    seq(16, _ => mark)
  }

  function Welcome(mark: byte): OpaqueEnvelope {
    OpaqueEnvelope(Id(mark), 1000, [])
  }

  function Endpoint(mark: byte): DepositEndpoint {
    DepositEndpoint(Id(mark), Id(mark), Id(mark) + Id(mark), 1000)
  }

  lemma Encodings(mark: byte)
    requires mark != 0
    ensures !AllZero(Id(mark))
    ensures Welcome(mark).Constructible() && EncodeEnvelope(Welcome(mark)).Ok?
    ensures 0 < |EncodeEnvelope(Welcome(mark)).value| <= 65536
    ensures DecodeEnvelope(EncodeEnvelope(Welcome(mark)).value) == Ok(Welcome(mark))
    ensures Endpoint(mark).Constructible() && EncodeEndpoint(Endpoint(mark)).Ok?
    ensures 0 < |EncodeEndpoint(Endpoint(mark)).value| <= 4096
    ensures DecodeEndpoint(EncodeEndpoint(Endpoint(mark)).value) == Ok(Endpoint(mark))
  {
    hide EncodeEnvelope, DecodeEnvelope, DecodeEndpoint;
    assert Id(mark)[0] != 0 && (Id(mark) + Id(mark))[0] != 0;
    EnvelopeAlwaysEncodes(Welcome(mark));
    EndpointEncodes(Endpoint(mark));
  }

  lemma EndpointEncodes(p: DepositEndpoint)
    requires p.Constructible()
    ensures EncodeEndpoint(p).Ok? && 0 < |EncodeEndpoint(p).value| <= 4096
    ensures DecodeEndpoint(EncodeEndpoint(p).value) == Ok(p)
  {
    EndpointSize(p);
    EndpointCodec(p, EncodeEndpoint(p).value);
  }

  function CommitOf(mark: byte, outboxExpiresAt: u64): JoinCommit
    requires Welcome(mark).Constructible() && EncodeEnvelope(Welcome(mark)).Ok?
    requires Endpoint(mark).Constructible() && EncodeEndpoint(Endpoint(mark)).Ok?
  {
    JoinCommit(Id(mark),
      Join(Id(mark), Id(mark), Id(mark), Id(mark), [mark], 0, 1, [mark], [mark],
           EncodeEnvelope(Welcome(mark)).value, EncodeEndpoint(Endpoint(mark)).value, outboxExpiresAt))
  }

  lemma CommitIsValid(mark: byte, outboxExpiresAt: u64)
    requires mark != 0 && outboxExpiresAt <= 1000
    ensures Welcome(mark).Constructible() && EncodeEnvelope(Welcome(mark)).Ok?
    ensures Endpoint(mark).Constructible() && EncodeEndpoint(Endpoint(mark)).Ok?
    ensures ValidCommit(POLICY, CommitOf(mark, outboxExpiresAt))
  {
    hide EncodeEnvelope, DecodeEnvelope, DecodeEndpoint, EncodeEndpoint;
    Encodings(mark);
  }

  ghost function SeedStep(c: JoinCommit): Step {
    Seeding(ReservedInvitation(c.join.invitationId, c.join.generation, c.join.requestId, 500), 10)
  }

  /** Seeding a new invitation and committing its join adds exactly one pending record. */
  lemma SeedThenCommit(s: Store, c: JoinCommit)
    requires s.policy == POLICY && s.reservations == map[] && s.retired == [] && |s.commits| < 4
    requires ValidCommit(POLICY, c) && c.join.outboxExpiresAt > 10 && c.transactionId !in s.commits
    requires forall t :: t in s.commits ==>
               s.commits[t].join.invitationId != c.join.invitationId && s.commits[t].join.requestId != c.join.requestId
    ensures Next(Next(s, SeedStep(c)), Committing(c, 10, NoFault))
            == s.(commits := s.commits[c.transactionId := Record(c.join, Pending, 0)])
  {
    hide ValidCommit;
    var seeded := Next(s, SeedStep(c));
    assert seeded.reservations == map[c.join.invitationId := Reservation(c.join.generation, c.join.requestId, 500)];
    assert seeded.reservations - {c.join.invitationId} == map[];
  }

  ghost predicate HidesLater(s: Store, later: Bytes, now: u64, seconds: u64) {
    LeaseNext(s, now, seconds).1 == Err(PortConflict) && Lease(s, later, now, seconds).1.Ok?
  }

  ghost function TwoJoins(a: JoinCommit, b: JoinCommit): seq<Step> {
    [SeedStep(a), Committing(a, 10, NoFault), SeedStep(b), Committing(b, 10, NoFault)]
  }

  lemma TwoJoinsReach(a: JoinCommit, b: JoinCommit)
    requires ValidCommit(POLICY, a) && ValidCommit(POLICY, b)
    requires a.join.outboxExpiresAt > 10 && b.join.outboxExpiresAt > 10
    requires a.transactionId != b.transactionId
    requires a.join.invitationId != b.join.invitationId && a.join.requestId != b.join.requestId
    ensures Run(New(POLICY, 0), TwoJoins(a, b))
            == New(POLICY, 0).(commits := map[a.transactionId := Record(a.join, Pending, 0),
                                              b.transactionId := Record(b.join, Pending, 0)])
  {
    hide ValidCommit, Next;
    var s := New(POLICY, 0);
    SeedThenCommit(s, a);
    var one := s.(commits := s.commits[a.transactionId := Record(a.join, Pending, 0)]);
    SeedThenCommit(one, b);
    var rest := [SeedStep(b), Committing(b, 10, NoFault)];
    RunPair(s, SeedStep(a), Committing(a, 10, NoFault), rest);
    RunPair(one, SeedStep(b), Committing(b, 10, NoFault), []);
    assert TwoJoins(a, b) == [SeedStep(a), Committing(a, 10, NoFault)] + rest;
    assert rest == [SeedStep(b), Committing(b, 10, NoFault)] + [];
  }

  lemma RunPair(s: Store, first: Step, second: Step, rest: seq<Step>)
    ensures Run(s, [first, second] + rest) == Run(Next(Next(s, first), second), rest)
  {
    hide Next;
    assert ([first, second] + rest)[1..] == [second] + rest;
    assert ([second] + rest)[1..] == rest;
  }

  /**
   A reachable store in which leasing the next Welcome for 60 seconds is refused with Conflict, because the first
   waiting one expires too soon, although the other waiting one can be leased for that long.
   */
  lemma FirstWelcomeHidesLater()
    ensures POLICY.Valid()
    ensures exists steps, later :: HidesLater(Run(New(POLICY, 0), steps), later, 20, 60)
  {
    hide ValidCommit, Run, EncodeEnvelope, EncodeEndpoint, Inv, Lease, LeaseNext;
    CommitIsValid(1, 30);
    CommitIsValid(2, 1000);
    var a, b := CommitOf(1, 30), CommitOf(2, 1000);
    assert Id(1)[0] != Id(2)[0];
    TwoJoinsReach(a, b);
    var s := Run(New(POLICY, 0), TwoJoins(a, b));
    ReachableStoresAreSound(POLICY, 0, TwoJoins(a, b));
    LeaseNextAnswers(s, 20, 60);
    WaitingBoth(s, a, b);
    SecondFits(s, a, b);
    assert HidesLater(s, b.transactionId, 20, 60);
  }

  lemma WaitingBoth(s: Store, a: JoinCommit, b: JoinCommit)
    requires s == New(POLICY, 0).(commits := map[a.transactionId := Record(a.join, Pending, 0),
                                                 b.transactionId := Record(b.join, Pending, 0)])
    requires a.transactionId == Id(1) && b.transactionId == Id(2)
    requires a.join.outboxExpiresAt == 30 && b.join.outboxExpiresAt == 1000
    ensures Waiting(s, 20) != {} && First(Waiting(s, 20)) == Id(1)
  {
    assert Id(1)[0] == 1 && Id(2)[0] == 2;
    assert Id(1) in Waiting(s, 20);
    assert Before(Id(1), Id(2));
    var first := First(Waiting(s, 20));
    if first == Id(2) {
      BeforeIsTotal(Id(1), Id(2));
    }
  }

  lemma SecondFits(s: Store, a: JoinCommit, b: JoinCommit)
    requires s == New(POLICY, 0).(commits := map[a.transactionId := Record(a.join, Pending, 0),
                                                 b.transactionId := Record(b.join, Pending, 0)])
    requires b.transactionId == Id(2) && b.join.outboxExpiresAt == 1000
    ensures Lease(s, b.transactionId, 20, 60).1.Ok?
  {
    assert Id(2)[0] != 0;
  }
}
