/** Mailbox rotation chains, and the checkpoints and pages that are bound to one generation of a chain. */
module Rotation {
  import opened Common

  const MAX_POLL_ENVELOPES: nat := 64
  const MAX_POLL_ENCODED_BYTES: nat := 4 * 1024 * 1024
  const MAX_ACKNOWLEDGEMENT_IDS: nat := 64

  datatype Binding = Binding(
    profile: nat, fingerprint: Bytes, continuity: Bytes, generation: u64, scope: Bytes,
    cursorSchema: nat, providerEpoch: Bytes, expiresAt: u64)

  datatype Contract = Contract(profile: nat, cursorSchema: nat, maximumDrainSeconds: u64)

  datatype Mode = Routine(drainUntil: u64) | Compromise

  datatype LifecycleError = InvalidRotation | GenerationExhausted | ProviderResultMismatch

  datatype RotationRequest = RotationRequest(predecessor: Binding, successorGeneration: u64, mode: Mode, expiresAt: u64)

  function NewRequest(predecessor: Binding, mode: Mode, expiresAt: u64): Result<RotationRequest, LifecycleError> {
    if expiresAt == 0 then Err(InvalidRotation)
    else if mode.Routine?
            && (mode.drainUntil == 0 || mode.drainUntil > predecessor.expiresAt || mode.drainUntil >= expiresAt)
    then Err(InvalidRotation)
    else
      match CheckedAdd(predecessor.generation, 1)
      case None => Err(GenerationExhausted)
      case Some(generation) => Ok(RotationRequest(predecessor, generation, mode, expiresAt))
  }

  function ValidateRequest(c: Contract, q: RotationRequest, now: u64): Result<(), LifecycleError> {
    if now == 0 || q.predecessor.expiresAt <= now || q.expiresAt <= now
       || q.predecessor.profile != c.profile || q.predecessor.cursorSchema != c.cursorSchema
    then Err(ProviderResultMismatch)
    else if q.mode.Routine?
            && (q.mode.drainUntil <= now || q.mode.drainUntil - now > c.maximumDrainSeconds)
    then Err(InvalidRotation)
    else Ok(())
  }

  function AcceptResult(c: Contract, q: RotationRequest, successor: Binding, now: u64): Result<Binding, LifecycleError> {
    var valid := ValidateRequest(c, q, now);
    if valid.Err? then Err(valid.error)
    else if successor.profile != c.profile
            || successor.fingerprint != q.predecessor.fingerprint
            || successor.continuity != q.predecessor.continuity
            || successor.generation != q.successorGeneration
            || successor.scope == q.predecessor.scope
            || successor.cursorSchema != q.predecessor.cursorSchema
            || successor.providerEpoch != q.predecessor.providerEpoch
            || successor.expiresAt != q.expiresAt
    then Err(ProviderResultMismatch)
    else Ok(successor)
  }

  // ---------- chains ----------

  /** One rotation as requested and answered. */
  datatype Link = Link(contract: Contract, mode: Mode, expiresAt: u64, now: u64, successor: Binding)

  predicate Accepted(predecessor: Binding, link: Link) {
    var request := NewRequest(predecessor, link.mode, link.expiresAt);
    request.Ok? && AcceptResult(link.contract, request.value, link.successor, link.now).Ok?
  }

  predicate Chain(start: Binding, links: seq<Link>)
    decreases |links|
  {
    links == [] || (Accepted(start, links[0]) && Chain(links[0].successor, links[1..]))
  }

  function At(start: Binding, links: seq<Link>, k: nat): Binding
    requires k <= |links|
  {
    if k == 0 then start else links[k - 1].successor
  }

  /** Along any chain of accepted rotations continuity is kept and the generation counts the links. */
  lemma {:induction false} ChainCounts(start: Binding, links: seq<Link>, k: nat)
    requires Chain(start, links) && k <= |links|
    ensures var b := At(start, links, k);
            && b.generation == start.generation + k
            && b.continuity == start.continuity && b.fingerprint == start.fingerprint
            && b.profile == start.profile && b.cursorSchema == start.cursorSchema
            && b.providerEpoch == start.providerEpoch
    decreases k
  {
    if k > 0 {
      ChainCounts(links[0].successor, links[1..], k - 1);
      assert At(links[0].successor, links[1..], k - 1) == At(start, links, k);
    }
  }

  /** So all bindings of a chain are pairwise different, and neighbours also differ in receive scope. */
  lemma ChainSeparates(start: Binding, links: seq<Link>, i: nat, k: nat)
    requires Chain(start, links) && i < k <= |links|
    ensures At(start, links, i) != At(start, links, k)
    ensures At(start, links, i).generation < At(start, links, k).generation
    ensures At(start, links, i).continuity == At(start, links, k).continuity
  {
    ChainCounts(start, links, i);
    ChainCounts(start, links, k);
  }

  lemma {:induction false} NeighboursDiffer(start: Binding, links: seq<Link>, k: nat)
    requires Chain(start, links) && k < |links|
    ensures At(start, links, k).scope != At(start, links, k + 1).scope
    ensures links[k].mode.Routine? ==>
              && links[k].now < links[k].mode.drainUntil <= At(start, links, k).expiresAt
              && links[k].mode.drainUntil < At(start, links, k + 1).expiresAt
    decreases k
  {
    if k > 0 {
      NeighboursDiffer(links[0].successor, links[1..], k - 1);
      assert At(links[0].successor, links[1..], k - 1) == At(start, links, k);
      assert At(links[0].successor, links[1..], k) == At(start, links, k + 1);
    }
  }

  // ---------- checkpoints and pages ----------

  datatype BoundCursor = BoundCursor(cursor: Bytes, binding: Binding)

  datatype Reason = InvalidCursor | ProviderStateReset

  datatype Position =
    | NewGeneration
    | ResumeAt(cursor: BoundCursor)
    | CommittedPageWithoutCursor
    | Resynchronize(reason: Reason)

  datatype Checkpoint = Checkpoint(binding: Binding, revision: u64, position: Position) {
    /** What the checkpoint constructors guarantee. */
    predicate Valid() {
      revision > 0 && (position.ResumeAt? ==> position.cursor.binding == binding)
    }
  }

  datatype ReceiveError =
    | ExpiredCursorBinding | CursorBindingMismatch | ReceivePageBindingMismatch | InvalidReceivePage

  function Resume(expected: Binding, cursor: BoundCursor, revision: u64, now: u64): Result<Checkpoint, ReceiveError> {
    if cursor.binding != expected then Err(CursorBindingMismatch)
    else if expected.expiresAt <= now then Err(ExpiredCursorBinding)
    else Ok(Checkpoint(expected, revision, ResumeAt(cursor)))
  }

  /** The position as a poll carries it: a cursor travels as bytes, without its binding. */
  datatype PollPosition =
    | PollNewGeneration
    | PollResume(cursor: Bytes)
    | PollCommittedPageWithoutCursor
    | PollResynchronize(reason: Reason)

  datatype PollBinding = PollBinding(binding: Binding, revision: u64, position: PollPosition)

  function BindingOf(c: Checkpoint): PollBinding {
    PollBinding(c.binding, c.revision,
                match c.position
                case NewGeneration => PollNewGeneration
                case ResumeAt(cursor) => PollResume(cursor.cursor)
                case CommittedPageWithoutCursor => PollCommittedPageWithoutCursor
                case Resynchronize(reason) => PollResynchronize(reason))
  }

  datatype PollRequest = PollRequest(bound: Option<PollBinding>, maximumEnvelopes: nat, maximumBytes: nat)

  datatype Item = Item(deliveryId: Bytes, encoded: Bytes, expiresAt: u64)

  datatype Batch = Batch(items: seq<Item>, next: Option<Bytes>, bound: Option<PollBinding>)

  function PollFrom(c: Checkpoint, maximumEnvelopes: nat, maximumBytes: nat, networkBytes: nat, now: u64)
    : Result<PollRequest, ReceiveError>
  {
    if c.binding.expiresAt <= now then Err(ExpiredCursorBinding)
    else if maximumEnvelopes == 0 || maximumEnvelopes > MAX_POLL_ENVELOPES
            || maximumBytes == 0 || maximumBytes > MAX_POLL_ENCODED_BYTES || maximumBytes > networkBytes
    then Err(InvalidReceivePage)
    else Ok(PollRequest(Some(BindingOf(c)), maximumEnvelopes, maximumBytes))
  }

  predicate DistinctIds(ids: seq<Bytes>) {
    forall i, k :: 0 <= i < k < |ids| ==> ids[i] != ids[k]
  }

  function IdsOf(items: seq<Item>): (ids: seq<Bytes>)
    ensures |ids| == |items| && forall i :: 0 <= i < |items| ==> ids[i] == items[i].deliveryId
  {
    seq(|items|, i requires 0 <= i < |items| => items[i].deliveryId)
  }

  predicate AcknowledgeableIds(ids: seq<Bytes>) {
    0 < |ids| <= MAX_ACKNOWLEDGEMENT_IDS && DistinctIds(ids)
  }

  datatype PageCommit = PageCommit(
    expected: Checkpoint, items: seq<Item>, next: Option<BoundCursor>, acknowledge: Option<seq<Bytes>>)

  function CommitPage(expected: Checkpoint, batch: Batch): Result<PageCommit, ReceiveError> {
    if batch.bound != Some(BindingOf(expected)) then Err(ReceivePageBindingMismatch)
    else if batch.items != [] && !AcknowledgeableIds(IdsOf(batch.items)) then Err(InvalidReceivePage)
    else
      Ok(PageCommit(expected, batch.items,
                    match batch.next case None => None case Some(cursor) => Some(BoundCursor(cursor, expected.binding)),
                    if batch.items == [] then None else Some(IdsOf(batch.items))))
  }

  /** A cursor or page of an earlier generation never resumes or commits against a later one, nor the other way round. */
  lemma GenerationsDoNotMix(start: Binding, links: seq<Link>, i: nat, k: nat, cursor: Bytes, revision: u64, now: u64,
                            earlier: Checkpoint, current: Checkpoint, batch: Batch)
    requires Chain(start, links) && i <= |links| && k <= |links| && i != k
    requires earlier.binding == At(start, links, i) && current.binding == At(start, links, k)
    requires batch.bound == Some(BindingOf(earlier))
    ensures Resume(At(start, links, k), BoundCursor(cursor, At(start, links, i)), revision, now)
            == Err(CursorBindingMismatch)
    ensures CommitPage(current, batch) == Err(ReceivePageBindingMismatch)
  {
    ChainSeparates(start, links, if i < k then i else k, if i < k then k else i);
  }

  /** A page commits only against the exact binding, revision and position it was polled from. */
  lemma PageCommitsOnlyWherePolled(polled: Checkpoint, current: Checkpoint, batch: Batch)
    requires polled.Valid() && current.Valid() && batch.bound == Some(BindingOf(polled))
    ensures CommitPage(current, batch).Ok? ==> current == polled
    ensures CommitPage(current, batch) == Err(ReceivePageBindingMismatch) <==> current != polled
  {
  }

  // ---------- building a batch ----------

  datatype BatchError = InvalidReceiveBatch | ExpiredReceivedEnvelope

  function TotalBytes(items: seq<Item>): nat {
    if items == [] then 0 else TotalBytes(items[..|items| - 1]) + |items[|items| - 1].encoded|
  }

  predicate CountAndIdsOk(items: seq<Item>, q: PollRequest) {
    |items| <= q.maximumEnvelopes && DistinctIds(IdsOf(items))
  }

  predicate BatchOk(items: seq<Item>, q: PollRequest, now: u64) {
    && CountAndIdsOk(items, q)
    && (forall i :: 0 <= i < |items| ==> items[i].expiresAt > now)
    && TotalBytes(items) <= q.maximumBytes
  }

  lemma {:induction false} PrefixFits(items: seq<Item>, n: nat)
    requires n <= |items|
    ensures TotalBytes(items[..n]) <= TotalBytes(items)
    decreases |items| - n
  {
    if n < |items| {
      assert items[..n + 1][..n] == items[..n];
      PrefixFits(items, n + 1);
    } else {
      assert items[..n] == items;
    }
  }

  /** Item `i` is the first expired one, and the items before it fit the byte budget. */
  predicate ExpiresFirst(items: seq<Item>, q: PollRequest, now: u64, i: nat)
    requires i < |items|
  {
    && items[i].expiresAt <= now && TotalBytes(items[..i]) <= q.maximumBytes
    && forall j :: 0 <= j < i ==> items[j].expiresAt > now
  }

  lemma OverBudgetNeverExpires(items: seq<Item>, q: PollRequest, now: u64, n: nat)
    requires 0 < n <= |items| && TotalBytes(items[..n]) > q.maximumBytes
    requires forall j :: 0 <= j < n ==> items[j].expiresAt > now
    ensures TotalBytes(items) > q.maximumBytes
    ensures forall i :: 0 <= i < |items| ==> !ExpiresFirst(items, q, now, i)
  {
    PrefixFits(items, n);
    forall i | n <= i < |items| ensures TotalBytes(items[..i]) > q.maximumBytes {
      PrefixFits(items[..i], n);
      assert items[..i][..n] == items[..n];
    }
  }

  lemma TotalGrows(items: seq<Item>, i: nat)
    requires i < |items|
    ensures TotalBytes(items[..i + 1]) == TotalBytes(items[..i]) + |items[i].encoded|
  {
    assert items[..i + 1][..i] == items[..i];
  }

  method HasDuplicate(ids: seq<Bytes>) returns (found: bool)
    ensures found <==> !DistinctIds(ids)
  {
    var i := 0;
    while i < |ids|
      invariant 0 <= i <= |ids|
      invariant forall a, b :: 0 <= a < i && a < b < |ids| ==> ids[a] != ids[b]
    {
      var k := i + 1;
      while k < |ids|
        invariant i < k <= |ids|
        invariant forall b :: i < b < k ==> ids[i] != ids[b]
      {
        if ids[k] == ids[i] {
          return true;
        }
        k := k + 1;
      }
      i := i + 1;
    }
    return false;
  }

  /**
   A batch is built exactly from a page that respects count, distinct ids, expiry and byte budget; it is
   refused as expired exactly when an expired item comes before the byte budget runs out.
   */
  method NewBatch(items: seq<Item>, next: Option<Bytes>, q: PollRequest, now: u64)
    returns (answer: Result<Batch, BatchError>)
    ensures answer.Ok? <==> BatchOk(items, q, now)
    ensures answer.Ok? ==> answer.value == Batch(items, next, q.bound)
    ensures answer == Err(ExpiredReceivedEnvelope) <==>
              CountAndIdsOk(items, q) && exists i :: 0 <= i < |items| && ExpiresFirst(items, q, now, i)
  {
    hide DistinctIds;
    if |items| > q.maximumEnvelopes {
      return Err(InvalidReceiveBatch);
    }
    var duplicate := HasDuplicate(IdsOf(items));
    if duplicate {
      return Err(InvalidReceiveBatch);
    }
    var bytes := 0;
    var i := 0;
    assert TotalBytes(items[..0]) == 0;
    hide TotalBytes;
    while i < |items|
      invariant 0 <= i <= |items| && bytes == TotalBytes(items[..i]) <= q.maximumBytes
      invariant forall j :: 0 <= j < i ==> items[j].expiresAt > now
    {
      if items[i].expiresAt <= now {
        assert ExpiresFirst(items, q, now, i);
        return Err(ExpiredReceivedEnvelope);
      }
      TotalGrows(items, i);
      bytes := bytes + |items[i].encoded|;
      if bytes > q.maximumBytes {
        OverBudgetNeverExpires(items, q, now, i + 1);
        return Err(InvalidReceiveBatch);
      }
      i := i + 1;
    }
    assert items[..i] == items;
    return Ok(Batch(items, next, q.bound));
  }

  /** A page built for a poll always commits at the checkpoint it was polled from, with all its ids to acknowledge. */
  lemma PolledPageCommits(c: Checkpoint, envelopes: nat, bytes: nat, network: nat, now: u64, items: seq<Item>,
                          next: Option<Bytes>, later: u64)
    requires PollFrom(c, envelopes, bytes, network, now).Ok?
    requires BatchOk(items, PollFrom(c, envelopes, bytes, network, now).value, later)
    ensures var q := PollFrom(c, envelopes, bytes, network, now).value;
            var answer := CommitPage(c, Batch(items, next, q.bound));
            && answer.Ok? && answer.value.items == items
            && answer.value.acknowledge == (if items == [] then None else Some(IdsOf(items)))
            && (answer.value.next.Some? ==> answer.value.next.value.binding == c.binding)
  {
  }
}
