/** One delivery pass: lease one Welcome, deposit it once, report the result. */
module Coordinator {
  import opened Common
  import opened WireObjects
  import Outbox = InviterStore
  import Mailbox
  import InMemoryStore
  import LocalTransport

  const MAX_COORDINATOR_LEASE_SECONDS: nat := 3600

  /** The timeout is counted in nanoseconds, as a `Duration` is. */
  datatype CoordinatorPolicy = CoordinatorPolicy(timeoutNanoseconds: nat, leaseSeconds: u64, networkBytes: u64)
  {
    predicate Valid() {
      && 0 < timeoutNanoseconds <= leaseSeconds * 1_000_000_000
      && 0 < leaseSeconds <= MAX_COORDINATOR_LEASE_SECONDS
      && 0 < networkBytes <= MAX_WIRE_OBJECT_BYTES
    }
  }

  datatype Failure =
    | Cancelled | DeadlineExceeded | Internal | ExpiredEnvelope | CorruptRemoteResponse | InvalidAuthority | QueueFull

  datatype CoordinatorError =
    | InvalidPolicy | OwnerStore(port: Outbox.PortError) | InvalidOwnerWork | DeliveryFailed(failure: Failure)

  datatype CoordinatorOutcome = Idle | Accepted

  /** A checkpoint answers with the wall clock, or with why the pass must stop. */
  type Checkpoint = Result<u64, Failure>

  /** Everything a pass observes from outside: clocks, cancellation and randomness. */
  datatype Weather = Weather(
    deadlineFits: bool, beforeLease: Checkpoint, beforeDeposit: Checkpoint,
    depositStart: Checkpoint, draw: Mailbox.Draw16, depositEnd: Checkpoint, completedAt: Option<u64>)

  /** Where a pass is dropped without reporting its lease, if it is. */
  datatype Cut = Finished | DroppedAfterLease | DroppedAfterDeposit

  /** The mailbox saw this deposit and gave this answer. */
  datatype Deposited = Deposited(
    transactionId: Bytes, welcome: Bytes, endpoint: DepositEndpoint, answer: Result<Bytes, Mailbox.MailboxError>)

  datatype Answer = Returned(result: Result<CoordinatorOutcome, CoordinatorError>) | Dropped

  datatype Passed = Passed(store: Outbox.Store, mail: Mailbox.Transport, answer: Answer, deposited: Option<Deposited>)

  function FailureOf(error: Mailbox.MailboxError): Failure {
    match error
    case Rejected => InvalidAuthority
    case CapacityExceeded => QueueFull
    case ProviderFailure => Internal
  }

  /** The envelope and endpoint a leased Welcome must decode to before it may be deposited. */
  function Prepare(p: CoordinatorPolicy, work: Outbox.DeliveryPayload, now: u64)
    : (r: Option<(OpaqueEnvelope, DepositEndpoint)>)
    ensures r.Some? ==> r.value.0.Constructible()
  {
    match DecodeEnvelope(work.welcome)
    case Err(_) => None
    case Ok(envelope) =>
      if AllZero(envelope.id) || envelope.expiresAt == 0 then None
      else if work.outboxExpiresAt <= now || work.outboxExpiresAt > envelope.expiresAt then None
      else
        match DecodeEndpoint(work.endpoint)
        case Err(_) => None
        case Ok(endpoint) =>
          if endpoint.expiresAt <= now || |work.welcome| > p.networkBytes then None
          else Some((envelope, endpoint))
  }

  /** The adapter's deposit: the mailbox after it, whether the mailbox was asked, and the receipt or failure. */
  function Dispatch(m: Mailbox.Transport, endpoint: DepositEndpoint, envelope: OpaqueEnvelope, w: Weather)
    : (Mailbox.Transport, Option<Result<Bytes, Mailbox.MailboxError>>, Result<Bytes, Failure>)
    requires envelope.Constructible()
  {
    match w.depositStart
    case Err(failure) => (m, None, Err(failure))
    case Ok(now) =>
      if envelope.expiresAt <= now || envelope.expiresAt > endpoint.expiresAt then (m, None, Err(ExpiredEnvelope))
      else
        var (after, answer) := Mailbox.Deposit(m, endpoint, envelope, now, w.draw);
        match answer
        case Err(error) => (after, Some(answer), Err(FailureOf(error)))
        case Ok(deliveryId) =>
          (after, Some(answer), if w.depositEnd.Err? then Err(w.depositEnd.error) else Ok(deliveryId))
  }

  /** Gives the lease back; the pass then ends with `error` unless the store refuses. */
  function GiveBack(s: Outbox.Store, lease: Outbox.DeliveryLease, error: CoordinatorError)
    : (Outbox.Store, Answer)
  {
    var (after, answer) := Outbox.Fail(s, lease);
    (after, Returned(Err(if answer.Err? then OwnerStore(Outbox.PortErrorOf(answer.error)) else error)))
  }

  function Settle(s: Outbox.Store, lease: Outbox.DeliveryLease, receipt: Result<Bytes, Failure>, completedAt: Option<u64>)
    : (Outbox.Store, Answer)
  {
    match receipt
    case Err(failure) => GiveBack(s, lease, DeliveryFailed(failure))
    case Ok(_) =>
      if completedAt.None? then (s, Returned(Err(DeliveryFailed(Internal))))
      else
        var (after, answer) := Outbox.Complete(s, lease, completedAt.value);
        (after, Returned(if answer.Err? then Err(OwnerStore(Outbox.PortErrorOf(answer.error))) else Ok(Accepted)))
  }

  /** From a leased Welcome to the end of the pass. */
  function Deliver(p: CoordinatorPolicy, s: Outbox.Store, m: Mailbox.Transport, w: Weather, cut: Cut,
                   work: Outbox.LeasedWelcome, now: u64): Passed
  {
    match Prepare(p, work.payload, now)
    case None =>
      var (after, answer) := GiveBack(s, work.lease, InvalidOwnerWork);
      Passed(after, m, answer, None)
    case Some((envelope, endpoint)) =>
      if w.beforeDeposit.Err? then
        var (after, answer) := GiveBack(s, work.lease, DeliveryFailed(w.beforeDeposit.error));
        Passed(after, m, answer, None)
      else
        var (mail, asked, receipt) := Dispatch(m, endpoint, envelope, w);
        var deposited := match asked
          case None => None
          case Some(given) => Some(Deposited(work.lease.transactionId, work.payload.welcome, endpoint, given));
        if cut.DroppedAfterDeposit? then Passed(s, mail, Dropped, deposited)
        else
          var (after, answer) := Settle(s, work.lease, receipt, w.completedAt);
          Passed(after, mail, answer, deposited)
  }

  ghost function Pass(p: CoordinatorPolicy, s: Outbox.Store, m: Mailbox.Transport, w: Weather, cut: Cut): Passed {
    if !w.deadlineFits then Passed(s, m, Returned(Err(InvalidPolicy)), None)
    else if w.beforeLease.Err? then Passed(s, m, Returned(Err(DeliveryFailed(w.beforeLease.error))), None)
    else
      var now := w.beforeLease.value;
      var (leased, answer) := Outbox.LeaseNext(s, now, p.leaseSeconds);
      match answer
      case Err(error) => Passed(leased, m, Returned(Err(OwnerStore(error))), None)
      case Ok(None) => Passed(leased, m, Returned(Ok(Idle)), None)
      case Ok(Some(work)) =>
        if cut.DroppedAfterLease? then Passed(leased, m, Dropped, None)
        else Deliver(p, leased, m, w, cut, work, now)
  }

  // ---------- the pass as it is run ----------

  /** Decodes and checks leased work step by step. */
  method PrepareWork(p: CoordinatorPolicy, work: Outbox.DeliveryPayload, now: u64)
    returns (r: Option<(OpaqueEnvelope, DepositEndpoint)>)
    ensures r == Prepare(p, work, now)
  {
    hide DecodeEnvelope, DecodeEndpoint;
    var envelope := DecodeEnvelope(work.welcome);
    if envelope.Err? || AllZero(envelope.value.id) || envelope.value.expiresAt == 0 {
      return None;
    }
    if work.outboxExpiresAt <= now || work.outboxExpiresAt > envelope.value.expiresAt {
      return None;
    }
    var endpoint := DecodeEndpoint(work.endpoint);
    if endpoint.Err? || endpoint.value.expiresAt <= now {
      return None;
    }
    if |work.welcome| > p.networkBytes {
      return None;
    }
    return Some((envelope.value, endpoint.value));
  }

  method DepositOnce(adapter: LocalTransport.LocalMemoryWelcomeTransport, endpoint: DepositEndpoint,
                     envelope: OpaqueEnvelope, w: Weather)
    returns (asked: Option<Result<Bytes, Mailbox.MailboxError>>, receipt: Result<Bytes, Failure>)
    requires envelope.Constructible()
    modifies adapter
    ensures (adapter.State(), asked, receipt) == Dispatch(old(adapter.State()), endpoint, envelope, w)
  {
    if w.depositStart.Err? {
      return None, Err(w.depositStart.error);
    }
    var now := w.depositStart.value;
    if envelope.expiresAt <= now || envelope.expiresAt > endpoint.expiresAt {
      return None, Err(ExpiredEnvelope);
    }
    var answer := adapter.DepositEnvelope(endpoint, envelope, now, w.draw);
    if answer.Err? {
      return Some(answer), Err(FailureOf(answer.error));
    }
    if w.depositEnd.Err? {
      return Some(answer), Err(w.depositEnd.error);
    }
    return Some(answer), Ok(answer.value);
  }

  method ReleaseInvalid(store: InMemoryStore.InMemoryInviterJoinStore, lease: Outbox.DeliveryLease,
                        error: CoordinatorError) returns (answer: Answer)
    modifies store
    ensures (store.State(), answer) == GiveBack(old(store.State()), lease, error)
  {
    var released := store.FailDelivery(lease);
    answer := Returned(Err(if released.Err? then OwnerStore(Outbox.PortErrorOf(released.error)) else error));
  }

  method RunOnce(p: CoordinatorPolicy, store: InMemoryStore.InMemoryInviterJoinStore,
                 adapter: LocalTransport.LocalMemoryWelcomeTransport, w: Weather, cut: Cut)
    returns (answer: Answer, deposited: Option<Deposited>)
    requires p.Valid()
    modifies store, adapter
    ensures Passed(store.State(), adapter.State(), answer, deposited)
            == Pass(p, old(store.State()), old(adapter.State()), w, cut)
  {
    hide Outbox.LeaseNext, Mailbox.Deposit, Prepare, DecodeEnvelope, DecodeEndpoint;
    deposited := None;
    if !w.deadlineFits {
      return Returned(Err(InvalidPolicy)), None;
    }
    if w.beforeLease.Err? {
      return Returned(Err(DeliveryFailed(w.beforeLease.error))), None;
    }
    var now := w.beforeLease.value;
    var leased := store.LeaseNextWelcome(now, p.leaseSeconds);
    if leased.Err? {
      return Returned(Err(OwnerStore(leased.error))), None;
    }
    if leased.value.None? {
      return Returned(Ok(Idle)), None;
    }
    var work := leased.value.value;
    if cut.DroppedAfterLease? {
      return Dropped, None;
    }
    var prepared := PrepareWork(p, work.payload, now);
    if prepared.None? {
      answer := ReleaseInvalid(store, work.lease, InvalidOwnerWork);
      return;
    }
    var (envelope, endpoint) := prepared.value;
    if w.beforeDeposit.Err? {
      answer := ReleaseInvalid(store, work.lease, DeliveryFailed(w.beforeDeposit.error));
      return;
    }
    var asked, receipt := DepositOnce(adapter, endpoint, envelope, w);
    if asked.Some? {
      deposited := Some(Deposited(work.lease.transactionId, work.payload.welcome, endpoint, asked.value));
    }
    if cut.DroppedAfterDeposit? {
      return Dropped, deposited;
    }
    if receipt.Err? {
      answer := ReleaseInvalid(store, work.lease, DeliveryFailed(receipt.error));
      return;
    }
    if w.completedAt.None? {
      return Returned(Err(DeliveryFailed(Internal))), deposited;
    }
    var reported := store.CompleteDelivery(work.lease, w.completedAt.value);
    if reported.Err? {
      return Returned(Err(OwnerStore(Outbox.PortErrorOf(reported.error)))), deposited;
    }
    return Returned(Ok(Accepted)), deposited;
  }
}
