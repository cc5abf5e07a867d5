/**
 Inviter store, coordinator and mailbox together. A run interleaves store calls, mailbox calls and
 delivery passes in any order, with any clocks, failures and dropped passes.
 */
module Delivery {
  import opened Common
  import opened WireObjects
  import opened Coordinator
  import Outbox = InviterStore
  import Laws = InviterLaws
  import Mailbox

  datatype World = World(store: Outbox.Store, mail: Mailbox.Transport)

  datatype Step =
    | StoreCall(call: Outbox.Step)
    | MailCall(visit: Mailbox.Step)
    | DeliveryPass(policy: CoordinatorPolicy, weather: Weather, cut: Cut)

  predicate WellFormed(step: Step) {
    step.MailCall? ==> Mailbox.WellFormed(step.visit)
  }

  predicate AllWellFormed(steps: seq<Step>) {
    forall i :: 0 <= i < |steps| ==> WellFormed(steps[i])
  }

  ghost function Next(world: World, step: Step): World
    requires WellFormed(step)
  {
    match step
    case StoreCall(call) => world.(store := Outbox.Next(world.store, call))
    case MailCall(visit) => world.(mail := Mailbox.Next(world.mail, visit))
    case DeliveryPass(policy, weather, cut) =>
      var passed := Pass(policy, world.store, world.mail, weather, cut);
      World(passed.store, passed.mail)
  }

  ghost function Run(world: World, steps: seq<Step>): World
    requires AllWellFormed(steps)
    decreases |steps|
  {
    if steps == [] then world else Run(Next(world, steps[0]), steps[1..])
  }

  /** The deposit the coordinator made in a step, if it made one. */
  ghost function Deposits(world: World, step: Step): seq<Deposited> {
    match step
    case DeliveryPass(policy, weather, cut) =>
      var deposited := Pass(policy, world.store, world.mail, weather, cut).deposited;
      if deposited.Some? then [deposited.value] else []
    case _ => []
  }

  ghost function DepositsBy(world: World, steps: seq<Step>): seq<Deposited>
    requires AllWellFormed(steps)
    decreases |steps|
  {
    if steps == [] then [] else Deposits(world, steps[0]) + DepositsBy(Next(world, steps[0]), steps[1..])
  }

  function Opened(world: World, step: Step): set<Bytes> {
    if step.MailCall? then Mailbox.Opened(world.mail, step.visit) else {}
  }

  /** No step of the run opens a mailbox with this id. */
  ghost predicate NeverDrawn(world: World, steps: seq<Step>, id: Bytes)
    requires AllWellFormed(steps)
    decreases |steps|
  {
    steps == [] || (id !in Opened(world, steps[0]) && NeverDrawn(Next(world, steps[0]), steps[1..], id))
  }

  /** The run opens a mailbox with this id at most once, and not at all when it was `known` before. */
  ghost predicate DrawnOnce(world: World, steps: seq<Step>, id: Bytes, known: bool)
    requires AllWellFormed(steps)
    decreases |steps|
  {
    steps == []
    || ((known ==> id !in Opened(world, steps[0]))
        && DrawnOnce(Next(world, steps[0]), steps[1..], id, known || id in Opened(world, steps[0])))
  }

  lemma {:induction false} KnownIsNeverDrawn(world: World, steps: seq<Step>, id: Bytes)
    requires AllWellFormed(steps) && DrawnOnce(world, steps, id, true)
    ensures NeverDrawn(world, steps, id)
    decreases |steps|
  {
    hide Next, Opened;
    if steps != [] {
      KnownIsNeverDrawn(Next(world, steps[0]), steps[1..], id);
    }
  }

  // ---------- a pass seen from the store and from the mailbox ----------

  /** The report a pass makes for the Welcome it leased. */
  function Report(p: CoordinatorPolicy, m: Mailbox.Transport, w: Weather, cut: Cut,
                  work: Outbox.LeasedWelcome, now: u64): seq<Outbox.Step>
  {
    match Prepare(p, work.payload, now)
    case None => [Outbox.Failing(work.lease)]
    case Some((envelope, endpoint)) =>
      if w.beforeDeposit.Err? then [Outbox.Failing(work.lease)]
      else if cut.DroppedAfterDeposit? then []
      else
        var receipt := Dispatch(m, endpoint, envelope, w).2;
        if receipt.Err? then [Outbox.Failing(work.lease)]
        else if w.completedAt.None? then []
        else [Outbox.Completing(work.lease, w.completedAt.value)]
  }

  /** A step of the whole system, as the store sees it. */
  ghost function StoreSteps(world: World, step: Step): seq<Outbox.Step> {
    match step
    case StoreCall(call) => [call]
    case MailCall(_) => []
    case DeliveryPass(p, w, cut) =>
      if !w.deadlineFits || w.beforeLease.Err? then []
      else
        var now := w.beforeLease.value;
        var answer := Outbox.LeaseNext(world.store, now, p.leaseSeconds).1;
        [Outbox.LeasingNext(now, p.leaseSeconds)]
        + (if answer.Ok? && answer.value.Some? && !cut.DroppedAfterLease? then
             Report(p, world.mail, w, cut, answer.value.value, now)
           else [])
  }

  lemma TwoSteps(s: Outbox.Store, a: Outbox.Step, rest: seq<Outbox.Step>)
    requires rest == [] || (|rest| == 1 && (rest[0].Failing? || rest[0].Completing?))
    ensures Outbox.Run(s, [a] + rest)
            == if rest == [] then Outbox.Next(s, a) else Outbox.Next(Outbox.Next(s, a), rest[0])
    ensures Outbox.IssuedBy(s, [a] + rest) == Outbox.Issued(s, a)
  {
    hide Outbox.Next;
    var steps := [a] + rest;
    var after := Outbox.Next(s, a);
    assert steps[1..] == rest;
    if rest != [] {
      assert rest == [rest[0]] && rest[1..] == [];
      assert Outbox.Run(after, rest) == Outbox.Run(Outbox.Next(after, rest[0]), []);
      assert Outbox.IssuedBy(after, rest) == [] + Outbox.IssuedBy(Outbox.Next(after, rest[0]), []);
    }
  }

  lemma OneStep(s: Outbox.Store, a: Outbox.Step)
    ensures Outbox.Run(s, [a]) == Outbox.Next(s, a) && Outbox.IssuedBy(s, [a]) == Outbox.Issued(s, a)
  {
    assert [a] + [] == [a];
    TwoSteps(s, a, []);
  }

  lemma DeliverReports(p: CoordinatorPolicy, s: Outbox.Store, m: Mailbox.Transport, w: Weather, cut: Cut,
                       work: Outbox.LeasedWelcome, now: u64)
    ensures var report := Report(p, m, w, cut, work, now);
            && (report == [] || (|report| == 1 && (report[0].Failing? || report[0].Completing?)))
            && Deliver(p, s, m, w, cut, work, now).store == (if report == [] then s else Outbox.Next(s, report[0]))
  {
    hide Prepare, Mailbox.Deposit;
  }

  /** To the store, every step of the system is a short list of its own steps. */
  lemma StoreSeesSteps(world: World, step: Step)
    requires WellFormed(step)
    ensures Next(world, step).store == Outbox.Run(world.store, StoreSteps(world, step))
    ensures Outbox.IssuedBy(world.store, StoreSteps(world, step))
            == match step
               case StoreCall(call) => Outbox.Issued(world.store, call)
               case MailCall(_) => []
               case DeliveryPass(p, w, cut) =>
                 if !w.deadlineFits || w.beforeLease.Err? then []
                 else Outbox.Issued(world.store, Outbox.LeasingNext(w.beforeLease.value, p.leaseSeconds))
  {
    hide Outbox.LeaseNext, Deliver, Report;
    match step
    case StoreCall(call) => OneStep(world.store, call);
    case MailCall(_) =>
    case DeliveryPass(p, w, cut) =>
      if w.deadlineFits && w.beforeLease.Ok? {
        var now := w.beforeLease.value;
        var (leased, answer) := Outbox.LeaseNext(world.store, now, p.leaseSeconds);
        var report: seq<Outbox.Step> := [];
        if answer.Ok? && answer.value.Some? && !cut.DroppedAfterLease? {
          DeliverReports(p, leased, world.mail, w, cut, answer.value.value, now);
          report := Report(p, world.mail, w, cut, answer.value.value, now);
        }
        TwoSteps(world.store, Outbox.LeasingNext(now, p.leaseSeconds), report);
      }
  }

  /** What a deposit of a pass is made of: the leased record's committed bytes, put to the mailbox once. */
  lemma PassDeposits(world: World, p: CoordinatorPolicy, w: Weather, cut: Cut)
    requires Pass(p, world.store, world.mail, w, cut).deposited.Some?
    ensures var passed := Pass(p, world.store, world.mail, w, cut);
            var d := passed.deposited.value;
            var leasing := Outbox.LeasingNext(w.beforeLease.value, p.leaseSeconds);
            var envelope := DecodeEnvelope(d.welcome);
            && w.beforeLease.Ok? && w.depositStart.Ok? && w.deadlineFits
            && d.transactionId in world.store.commits
            && world.store.commits[d.transactionId].join.welcome == d.welcome
            && DecodeEndpoint(world.store.commits[d.transactionId].join.endpoint) == Ok(d.endpoint)
            && |Outbox.Issued(world.store, leasing)| == 1
            && Outbox.Issued(world.store, leasing)[0].transactionId == d.transactionId
            && envelope.Ok? && envelope.value.Constructible()
            && (passed.mail, d.answer)
               == Mailbox.Deposit(world.mail, d.endpoint, envelope.value, w.depositStart.value, w.draw)
  {
    hide DecodeEnvelope, DecodeEndpoint, Mailbox.Deposit, Outbox.LeaseNext, GiveBack, Settle;
    LeasedPayloadIsCommitted(world.store, w.beforeLease.value, p.leaseSeconds);
  }

  lemma LeasedPayloadIsCommitted(s: Outbox.Store, now: u64, seconds: u64)
    ensures var answer := Outbox.LeaseNext(s, now, seconds).1;
            answer.Ok? && answer.value.Some? ==>
              var work := answer.value.value;
              && work.lease.transactionId in s.commits
              && var join := s.commits[work.lease.transactionId].join;
                 work.payload == Outbox.DeliveryPayload(join.welcome, join.endpoint, join.outboxExpiresAt)
  {
    var swept := Outbox.Sweep(s, now);
    if Outbox.Waiting(swept, now) != {} {
      Laws.HandOutIsLease(swept, Outbox.First(Outbox.Waiting(swept, now)), now, seconds);
    }
  }

  /** To the mailbox, a pass is one deposit or nothing. */
  lemma MailSeesDeposit(world: World, p: CoordinatorPolicy, w: Weather, cut: Cut)
    ensures var passed := Pass(p, world.store, world.mail, w, cut);
            passed.deposited.None? ==> passed.mail == world.mail
  {
    hide Prepare, Mailbox.Deposit, Outbox.LeaseNext, GiveBack, Settle;
  }

  // ---------- deposits carry the committed Welcome ----------

  lemma {:induction false} RunConcat(s: Outbox.Store, a: seq<Outbox.Step>, b: seq<Outbox.Step>)
    ensures Outbox.Run(s, a + b) == Outbox.Run(Outbox.Run(s, a), b)
    ensures Outbox.IssuedBy(s, a + b) == Outbox.IssuedBy(s, a) + Outbox.IssuedBy(Outbox.Run(s, a), b)
    decreases |a|
  {
    hide Outbox.Next, Outbox.Issued;
    if a == [] {
      assert a + b == b;
    } else {
      assert (a + b)[1..] == a[1..] + b;
      RunConcat(Outbox.Next(s, a[0]), a[1..], b);
    }
  }

  ghost function StoreStepsBy(world: World, steps: seq<Step>): seq<Outbox.Step>
    requires AllWellFormed(steps)
    decreases |steps|
  {
    if steps == [] then [] else StoreSteps(world, steps[0]) + StoreStepsBy(Next(world, steps[0]), steps[1..])
  }

  /** So every law of store runs holds of the store in every system run. */
  lemma {:induction false} StoreSeesRun(world: World, steps: seq<Step>)
    requires AllWellFormed(steps)
    ensures Run(world, steps).store == Outbox.Run(world.store, StoreStepsBy(world, steps))
    decreases |steps|
  {
    hide Next, StoreSteps;
    if steps != [] {
      StoreSeesSteps(world, steps[0]);
      StoreSeesRun(Next(world, steps[0]), steps[1..]);
      RunConcat(world.store, StoreSteps(world, steps[0]), StoreStepsBy(Next(world, steps[0]), steps[1..]));
    }
  }

  /** Every deposit ever made for a transaction carries its byte-identical committed Welcome and endpoint. */
  lemma {:induction false} DepositsCarryCommittedBytes(world: World, steps: seq<Step>, i: nat)
    requires Outbox.Inv(world.store) && AllWellFormed(steps) && i < |DepositsBy(world, steps)|
    ensures var d := DepositsBy(world, steps)[i];
            var store := Run(world, steps).store;
            && d.transactionId in store.commits
            && store.commits[d.transactionId].join.welcome == d.welcome
            && DecodeEndpoint(store.commits[d.transactionId].join.endpoint) == Ok(d.endpoint)
    decreases |steps|
  {
    hide Next, StoreSteps, Outbox.Inv, DecodeEndpoint, DecodeEnvelope, Mailbox.Deposit;
    var step := steps[0];
    var next := Next(world, step);
    var first := Deposits(world, step);
    StoreSeesSteps(world, step);
    Laws.RunKeepsInv(world.store, StoreSteps(world, step));
    if i < |first| {
      var d := first[i];
      PassDeposits(world, step.policy, step.weather, step.cut);
      Laws.RunEvolves(world.store, StoreSteps(world, step), d.transactionId);
      StoreSeesRun(next, steps[1..]);
      Laws.RunEvolves(next.store, StoreStepsBy(next, steps[1..]), d.transactionId);
    } else {
      DepositsCarryCommittedBytes(next, steps[1..], i - |first|);
    }
  }

  // ---------- one effect per mailbox ----------

  /** The mailbox is gone, or it has accepted exactly `identity`. */
  predicate Sealed(m: Mailbox.Transport, id: Bytes, identity: Mailbox.Identity) {
    id in m.mailboxes ==> Mailbox.IdentityOf(m.mailboxes[id]) == Some(identity)
  }

  lemma MailStaysSealed(m: Mailbox.Transport, visit: Mailbox.Step, id: Bytes, identity: Mailbox.Identity)
    requires Mailbox.WellFormed(visit) && id !in Mailbox.Opened(m, visit) && Sealed(m, id, identity)
    ensures Sealed(Mailbox.Next(m, visit), id, identity)
  {
    hide Mailbox.Next, Mailbox.Opened;
    if id in Mailbox.Next(m, visit).mailboxes {
      if id in m.mailboxes {
        Mailbox.NextKeepsAcceptance(m, visit, id);
      } else {
        Mailbox.NextOpens(m, visit, id);
      }
    }
  }

  lemma StaysSealed(world: World, step: Step, id: Bytes, identity: Mailbox.Identity)
    requires WellFormed(step) && id !in Opened(world, step) && Sealed(world.mail, id, identity)
    ensures Sealed(Next(world, step).mail, id, identity)
  {
    hide Pass, Mailbox.Deposit, Mailbox.Create, Sealed, Outbox.Next, DecodeEnvelope, DecodeEndpoint;
    match step
    case StoreCall(_) =>
    case MailCall(visit) => MailStaysSealed(world.mail, visit, id, identity);
    case DeliveryPass(p, w, cut) =>
      var passed := Pass(p, world.store, world.mail, w, cut);
      MailSeesDeposit(world, p, w, cut);
      if passed.deposited.Some? {
        PassDeposits(world, p, w, cut);
        var d := passed.deposited.value;
        var visit := Mailbox.Depositing(d.endpoint, DecodeEnvelope(d.welcome).value, w.depositStart.value, w.draw);
        MailStaysSealed(world.mail, visit, id, identity);
      }
  }

  /** A deposit that was answered with a delivery id has sealed its mailbox with these very bytes. */
  lemma AcceptedDepositSeals(world: World, step: Step)
    requires step.DeliveryPass? && Deposits(world, step) != [] && Deposits(world, step)[0].answer.Ok?
    ensures var d := Deposits(world, step)[0];
            && DecodeEnvelope(d.welcome).Ok? && d.endpoint.mailboxId in world.mail.mailboxes
            && Sealed(Next(world, step).mail, d.endpoint.mailboxId,
                      Mailbox.Identity(DecodeEnvelope(d.welcome).value.id, Mailbox.EnvelopeDigest(d.welcome), d.answer.value))
            && d.endpoint.mailboxId in Next(world, step).mail.mailboxes
  {
    hide Pass, Mailbox.Deposit, DecodeEnvelope, DecodeEndpoint, EncodeEnvelope;
    PassDeposits(world, step.policy, step.weather, step.cut);
    var d := Deposits(world, step)[0];
    var envelope := DecodeEnvelope(d.welcome).value;
    EnvelopeCodec(envelope, d.welcome);
    Mailbox.DepositAccepts(world.mail, d.endpoint, envelope, step.weather.depositStart.value, step.weather.draw);
  }

  lemma {:induction false} LaterDepositsAgree(world: World, steps: seq<Step>,
                                              id: Bytes, identity: Mailbox.Identity, k: nat)
    requires AllWellFormed(steps) && NeverDrawn(world, steps, id)
    requires Sealed(world.mail, id, identity) && k < |DepositsBy(world, steps)|
    requires DepositsBy(world, steps)[k].endpoint.mailboxId == id && DepositsBy(world, steps)[k].answer.Ok?
    ensures identity.digest == Mailbox.EnvelopeDigest(DepositsBy(world, steps)[k].welcome)
    ensures identity.deliveryId == DepositsBy(world, steps)[k].answer.value
    decreases |steps|
  {
    hide Next, Opened, Deposits;
    var step := steps[0];
    var first := Deposits(world, step);
    OnlyPassesDeposit(world, step);
    StaysSealed(world, step, id, identity);
    if k < |first| {
      assert first[0] == DepositsBy(world, steps)[k];
      AcceptedDepositSeals(world, step);
    } else {
      LaterDepositsAgree(Next(world, step), steps[1..], id, identity, k - |first|);
    }
  }

  lemma OnlyPassesDeposit(world: World, step: Step)
    ensures Deposits(world, step) != [] ==> step.DeliveryPass? && |Deposits(world, step)| == 1
  {
  }

  /**
   In any run, all accepted deposits into one mailbox carry the same bytes and got the same delivery id, provided its
   id was not drawn a second time after the mailbox had expired.
   */
  lemma {:induction false} OneEffectPerMailbox(world: World, steps: seq<Step>, known: bool, i: nat, k: nat)
    requires AllWellFormed(steps) && i < k < |DepositsBy(world, steps)|
    requires DepositsBy(world, steps)[i].endpoint.mailboxId == DepositsBy(world, steps)[k].endpoint.mailboxId
    requires DepositsBy(world, steps)[i].answer.Ok? && DepositsBy(world, steps)[k].answer.Ok?
    requires var id := DepositsBy(world, steps)[i].endpoint.mailboxId;
             (id in world.mail.mailboxes ==> known) && DrawnOnce(world, steps, id, known)
    ensures DepositsBy(world, steps)[i].welcome == DepositsBy(world, steps)[k].welcome
    ensures DepositsBy(world, steps)[i].answer == DepositsBy(world, steps)[k].answer
    decreases |steps|
  {
    hide Next, Opened, DecodeEnvelope, Deposits, Sealed;
    var step := steps[0];
    var first := Deposits(world, step);
    var id := DepositsBy(world, steps)[i].endpoint.mailboxId;
    OnlyPassesDeposit(world, step);
    if i < |first| {
      assert first[0] == DepositsBy(world, steps)[i];
      AcceptedDepositSeals(world, step);
      var d := first[0];
      var identity := Mailbox.Identity(DecodeEnvelope(d.welcome).value.id, Mailbox.EnvelopeDigest(d.welcome), d.answer.value);
      KnownIsNeverDrawn(Next(world, step), steps[1..], id);
      LaterDepositsAgree(Next(world, step), steps[1..], id, identity, k - |first|);
    } else {
      if id in Next(world, step).mail.mailboxes && id !in world.mail.mailboxes {
        OpeningIsKnown(world, step, id);
      }
      OneEffectPerMailbox(Next(world, step), steps[1..], known || id in Opened(world, step), i - |first|, k - |first|);
    }
  }

  lemma OpeningIsKnown(world: World, step: Step, id: Bytes)
    requires WellFormed(step) && id in Next(world, step).mail.mailboxes && id !in world.mail.mailboxes
    ensures id in Opened(world, step)
  {
    hide Pass, Mailbox.Next, Mailbox.Opened, Outbox.Next, DecodeEnvelope, DecodeEndpoint, Mailbox.Deposit;
    match step
    case StoreCall(_) =>
    case MailCall(visit) => Mailbox.NextOpens(world.mail, visit, id);
    case DeliveryPass(p, w, cut) =>
      MailSeesDeposit(world, p, w, cut);
      PassDeposits(world, p, w, cut);
      DepositOpensNothing(world.mail, Pass(p, world.store, world.mail, w, cut).deposited.value.endpoint,
                          DecodeEnvelope(Pass(p, world.store, world.mail, w, cut).deposited.value.welcome).value,
                          w.depositStart.value, w.draw);
  }

  lemma DepositOpensNothing(m: Mailbox.Transport, endpoint: DepositEndpoint, envelope: OpaqueEnvelope, now: u64,
                            draw: Mailbox.Draw16)
    requires envelope.Constructible()
    ensures Mailbox.Deposit(m, endpoint, envelope, now, draw).0.mailboxes.Keys == m.mailboxes.Keys
  {
    hide EncodeEnvelope;
  }

  /** In any run a mailbox that has accepted an envelope keeps that identity and delivery id, or is gone. */
  lemma {:induction false} IdentityIsFixed(world: World, steps: seq<Step>, id: Bytes,
                                           identity: Mailbox.Identity)
    requires AllWellFormed(steps) && NeverDrawn(world, steps, id) && Sealed(world.mail, id, identity)
    ensures Sealed(Run(world, steps).mail, id, identity)
    decreases |steps|
  {
    hide Next, Opened, Sealed;
    if steps != [] {
      StaysSealed(world, steps[0], id, identity);
      IdentityIsFixed(Next(world, steps[0]), steps[1..], id, identity);
    }
  }

  // ---------- acknowledged for good ----------

  /** The mailbox is gone, or its envelope has been taken out. */
  predicate Emptied(m: Mailbox.Transport, id: Bytes) {
    id in m.mailboxes ==> Mailbox.Consumed(m.mailboxes[id])
  }

  lemma MailStaysEmptied(m: Mailbox.Transport, visit: Mailbox.Step, id: Bytes)
    requires Mailbox.WellFormed(visit) && id !in Mailbox.Opened(m, visit) && Emptied(m, id)
    ensures Emptied(Mailbox.Next(m, visit), id)
  {
    hide Mailbox.Next, Mailbox.Opened;
    if id in Mailbox.Next(m, visit).mailboxes {
      if id in m.mailboxes {
        Mailbox.NextKeepsAcceptance(m, visit, id);
      } else {
        Mailbox.NextOpens(m, visit, id);
      }
    }
  }

  lemma StaysEmptied(world: World, step: Step, id: Bytes)
    requires WellFormed(step) && id !in Opened(world, step) && Emptied(world.mail, id)
    ensures Emptied(Next(world, step).mail, id)
  {
    hide Pass, Mailbox.Deposit, Mailbox.Create, Emptied, Outbox.Next, DecodeEnvelope, DecodeEndpoint;
    match step
    case StoreCall(_) =>
    case MailCall(visit) => MailStaysEmptied(world.mail, visit, id);
    case DeliveryPass(p, w, cut) =>
      var passed := Pass(p, world.store, world.mail, w, cut);
      MailSeesDeposit(world, p, w, cut);
      if passed.deposited.Some? {
        PassDeposits(world, p, w, cut);
        var d := passed.deposited.value;
        var visit := Mailbox.Depositing(d.endpoint, DecodeEnvelope(d.welcome).value, w.depositStart.value, w.draw);
        MailStaysEmptied(world.mail, visit, id);
      }
  }

  lemma {:induction false} RunStaysEmptied(world: World, steps: seq<Step>, id: Bytes)
    requires AllWellFormed(steps) && NeverDrawn(world, steps, id) && Emptied(world.mail, id)
    ensures Emptied(Run(world, steps).mail, id)
    decreases |steps|
  {
    hide Next, Opened, Emptied;
    if steps != [] {
      StaysEmptied(world, steps[0], id);
      RunStaysEmptied(Next(world, steps[0]), steps[1..], id);
    }
  }

  /**
   After an acknowledgement, whatever passes retry and redeposit, no receive ever yields an envelope from that
   mailbox again.
   */
  lemma AcknowledgedNeverReturns(world: World, right: Mailbox.Right, deliveryId: Bytes, now: u64, steps: seq<Step>,
                                 reader: Mailbox.Right, later: u64)
    requires Mailbox.Acknowledge(world.mail, right, deliveryId, now).1.Ok?
    requires AllWellFormed(steps) && reader.mailboxId == right.mailboxId
    requires var after := world.(mail := Mailbox.Acknowledge(world.mail, right, deliveryId, now).0);
             NeverDrawn(after, steps, right.mailboxId)
    ensures var after := world.(mail := Mailbox.Acknowledge(world.mail, right, deliveryId, now).0);
            var answer := Mailbox.Receive(Run(after, steps).mail, reader, later).1;
            answer == Ok(None) || answer == Err(Mailbox.Rejected)
  {
    hide Run, NeverDrawn;
    var after := world.(mail := Mailbox.Acknowledge(world.mail, right, deliveryId, now).0);
    assert Emptied(after.mail, right.mailboxId);
    RunStaysEmptied(after, steps, right.mailboxId);
  }

  // ---------- what Accepted means ----------

  /**
   The record is Delivered with its join unchanged, and the mailbox named by the committed endpoint holds
   exactly the committed Welcome under the receipt's delivery id.
   */
  predicate DeliveredExactly(store: Outbox.Store, after: Outbox.Store, mail: Mailbox.Transport, d: Deposited) {
    && d.transactionId in store.commits && d.transactionId in after.commits && d.answer.Ok?
    && after.commits[d.transactionId].outbox.Delivered?
    && after.commits[d.transactionId].join == store.commits[d.transactionId].join
    && after.commits[d.transactionId].join.welcome == d.welcome
    && DecodeEndpoint(after.commits[d.transactionId].join.endpoint) == Ok(d.endpoint)
    && d.endpoint.mailboxId in mail.mailboxes && DecodeEnvelope(d.welcome).Ok?
    && Mailbox.IdentityOf(mail.mailboxes[d.endpoint.mailboxId])
       == Some(Mailbox.Identity(DecodeEnvelope(d.welcome).value.id, Mailbox.EnvelopeDigest(d.welcome), d.answer.value))
  }

  /** A pass that returns Accepted has delivered exactly the committed bytes. */
  lemma AcceptedMeansDelivered(world: World, p: CoordinatorPolicy, w: Weather, cut: Cut)
    requires Pass(p, world.store, world.mail, w, cut).answer == Returned(Ok(Accepted))
    ensures var passed := Pass(p, world.store, world.mail, w, cut);
            passed.deposited.Some? && DeliveredExactly(world.store, passed.store, passed.mail, passed.deposited.value)
  {
    hide Pass, DecodeEnvelope, DecodeEndpoint, Mailbox.Deposit, Outbox.Issued;
    AcceptedReports(world, p, w, cut);
    PassDeposits(world, p, w, cut);
    AcceptedDepositSeals(world, DeliveryPass(p, w, cut));
  }

  lemma AcceptedReports(world: World, p: CoordinatorPolicy, w: Weather, cut: Cut)
    requires Pass(p, world.store, world.mail, w, cut).answer == Returned(Ok(Accepted))
    ensures var passed := Pass(p, world.store, world.mail, w, cut);
            && passed.deposited.Some? && passed.deposited.value.answer.Ok?
            && var d := passed.deposited.value;
               && d.transactionId in world.store.commits && d.transactionId in passed.store.commits
               && passed.store.commits[d.transactionId].outbox.Delivered?
               && passed.store.commits[d.transactionId].join == world.store.commits[d.transactionId].join
  {
    hide Prepare, DecodeEnvelope, DecodeEndpoint, Mailbox.Deposit, Outbox.LeaseNext;
    var now := w.beforeLease.value;
    var (leased, answer) := Outbox.LeaseNext(world.store, now, p.leaseSeconds);
    LeasedPayloadIsCommitted(world.store, now, p.leaseSeconds);
    Laws.LeaseNextJoins(world.store, now, p.leaseSeconds);
    var t := answer.value.value.lease.transactionId;
    assert t in Outbox.Joins(world.store) && t in Outbox.Joins(leased);
    assert Outbox.Joins(leased)[t] == Outbox.Joins(world.store)[t];
  }

  // ---------- deposits are bounded ----------

  function CountDeposits(deposits: seq<Deposited>, t: Bytes): nat {
    if deposits == [] then 0
    else (if deposits[0].transactionId == t then 1 else 0) + CountDeposits(deposits[1..], t)
  }

  lemma {:induction false} CountDepositsConcat(a: seq<Deposited>, b: seq<Deposited>, t: Bytes)
    ensures CountDeposits(a + b, t) == CountDeposits(a, t) + CountDeposits(b, t)
  {
    if a == [] {
      assert a + b == b;
    } else {
      assert (a + b)[1..] == a[1..] + b;
      CountDepositsConcat(a[1..], b, t);
    }
  }

  lemma StepDepositsAtMostLeases(world: World, step: Step, t: Bytes)
    requires WellFormed(step)
    ensures CountDeposits(Deposits(world, step), t)
            <= Laws.CountFor(Outbox.IssuedBy(world.store, StoreSteps(world, step)), t)
  {
    hide Pass, Outbox.Issued, DecodeEnvelope, DecodeEndpoint, Mailbox.Deposit, StoreSteps;
    StoreSeesSteps(world, step);
    if Deposits(world, step) != [] {
      PassDeposits(world, step.policy, step.weather, step.cut);
      var d := Deposits(world, step)[0];
      assert Deposits(world, step) == [d] && [d][1..] == [];
      var issued := Outbox.IssuedBy(world.store, StoreSteps(world, step));
      assert issued == [issued[0]];
      Laws.CountOne(issued[0], t);
    }
  }

  lemma {:induction false} DepositsAtMostLeases(world: World, steps: seq<Step>, t: Bytes)
    requires AllWellFormed(steps)
    ensures CountDeposits(DepositsBy(world, steps), t)
            <= Laws.CountFor(Outbox.IssuedBy(world.store, StoreStepsBy(world, steps)), t)
    decreases |steps|
  {
    hide Next, StoreSteps, Deposits;
    if steps != [] {
      var next := Next(world, steps[0]);
      var own := StoreSteps(world, steps[0]);
      var rest := StoreStepsBy(next, steps[1..]);
      StoreSeesSteps(world, steps[0]);
      StepDepositsAtMostLeases(world, steps[0], t);
      DepositsAtMostLeases(next, steps[1..], t);
      RunConcat(world.store, own, rest);
      CountDepositsConcat(Deposits(world, steps[0]), DepositsBy(next, steps[1..]), t);
      Laws.CountForConcat(Outbox.IssuedBy(world.store, own), Outbox.IssuedBy(next.store, rest), t);
    }
  }

  /** However passes fail, drop or repeat, a transaction is deposited at most `deliveryAttempts` times. */
  lemma DepositsAreBounded(policy: Outbox.Policy, scope: nat, mail: Mailbox.Transport, steps: seq<Step>, t: Bytes)
    requires policy.Valid() && AllWellFormed(steps)
    ensures CountDeposits(DepositsBy(World(Outbox.New(policy, scope), mail), steps), t) <= policy.deliveryAttempts
  {
    var world := World(Outbox.New(policy, scope), mail);
    DepositsAtMostLeases(world, steps, t);
    Laws.DeliveryIsBounded(policy, scope, StoreStepsBy(world, steps), t);
  }

  /** Once a record is Delivered or its attempts are exhausted, no later pass deposits for it. */
  lemma NothingAfterFinal(world: World, steps: seq<Step>, t: Bytes)
    requires Outbox.Inv(world.store) && AllWellFormed(steps) && t in world.store.commits
    requires world.store.commits[t].outbox.Delivered? || world.store.commits[t].outbox.Exhausted?
    ensures CountDeposits(DepositsBy(world, steps), t) == 0
  {
    hide Outbox.Inv;
    DepositsAtMostLeases(world, steps, t);
    Laws.RunEvolves(world.store, StoreStepsBy(world, steps), t);
  }

  // ---------- the owner's work is never invalid, except for its size ----------

  /** For committed work, a pass reports InvalidOwnerWork exactly when the Welcome exceeds the network budget. */
  lemma OwnerWorkIsValid(world: World, p: CoordinatorPolicy, w: Weather, cut: Cut)
    requires Outbox.Inv(world.store) && Laws.JoinsValid(world.store.policy, Outbox.Joins(world.store))
    requires w.deadlineFits && w.beforeLease.Ok? && !cut.DroppedAfterLease?
    requires var answer := Outbox.LeaseNext(world.store, w.beforeLease.value, p.leaseSeconds).1;
             answer.Ok? && answer.value.Some?
    ensures var work := Outbox.LeaseNext(world.store, w.beforeLease.value, p.leaseSeconds).1.value.value;
            Pass(p, world.store, world.mail, w, cut).answer == Returned(Err(InvalidOwnerWork))
            <==> |work.payload.welcome| > p.networkBytes
  {
    hide DecodeEnvelope, DecodeEndpoint, Mailbox.Deposit, Outbox.LeaseNext;
    var now := w.beforeLease.value;
    var (leased, answer) := Outbox.LeaseNext(world.store, now, p.leaseSeconds);
    var work := answer.value.value;
    LeasedPayloadIsCommitted(world.store, now, p.leaseSeconds);
    Laws.LeaseNextIssues(world.store, now, p.leaseSeconds);
    assert Outbox.Issued(world.store, Outbox.LeasingNext(now, p.leaseSeconds)) == [work.lease];
    Laws.LeaseNextJoins(world.store, now, p.leaseSeconds);
    var t := work.lease.transactionId;
    assert t in Outbox.Joins(world.store) && Outbox.Joins(leased)[t] == Outbox.Joins(world.store)[t];
    assert Outbox.Live(leased, work.lease, now);
  }
}
