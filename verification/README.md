# Session Chat: verified model

Session Chat is a protocol laboratory of small, bounded state machines that hand one-shot tokens to each
other and must survive retries, lost answers, expiry and restarts. This project models its hard core in
Dafny and proves what whole runs of these machines keep, and how they compose.

`dafny verify dfyconfig.toml` checks everything.

| area | files |
|---|---|
| shared vocabulary | `Common.dfy` |
| canonical wire objects | `Cbor.dfy`, `WireObjects.dfy`, `Invitation.dfy` |
| inviter join store | `InviterStore.dfy`, `InviterLaws.dfy`, `InMemoryStore.dfy`, `InviterInstances.dfy` |
| Welcome mailbox, coordinator, delivery end to end | `Mailbox.dfy`, `LocalTransport.dfy`, `Coordinator.dfy`, `Delivery.dfy` |
| durable authorization | `AuthTables.dfy`, `Authorization.dfy`, `AuthInvariant.dfy`, `AuthSteps.dfy`, `AuthLaws.dfy`, `AuthHistory.dfy`, `AuthRecovery.dfy`, `AuthStranded.dfy`, `AuthInstances.dfy`, `AuthStore.dfy` |
| fault-injecting VFS | `FaultVfs.dfy` |
| vault, inbox, unlock work and its limiter | `Vault.dfy`, `VaultLaws.dfy`, `VaultModel.dfy`, `UnlockWork.dfy`, `Limiter.dfy` |
| in-memory admission | `Admission.dfy`, `AdmissionLaws.dfy`, `AdmissionOwners.dfy` |
| durable MLS Add | `MlsBinding.dfy`, `WriteDigest.dfy` |
| supervisor, rotation, receive pages | `Supervisor.dfy`, `Rotation.dfy` |

## How the model is built

Each machine has three layers. Functions from the state before to the state after and the answer say what
one operation does, with every branch and error of the code in its order. A class with the mutable fields
and loops of the code is proved equal to these functions, method by method. Lemmas over sequences of steps
then say what every run keeps.

Choices made throughout:

- Clocks, randomness, cancellation, injected faults, signature checks and the MLS provider are parameters,
  arbitrary at every step; clocks may move backwards. Digests are injective.
- Where the code compares shared pointers to recognise its own tokens, the model compares identity numbers.
- 64-bit values are bounded and their checked, saturating and exhausted cases are modelled. The MLS
  revision and the supervisor's wake generation wrap around in the code and are unbounded here.
- Fixed-size identifiers are byte strings in the wire, store and mailbox models. In the authorization,
  vault session, admission and MLS models they are their big-endian values, so zero is the all-zero value.
- Concurrency is modelled by atomic steps in any interleaving (limiter, unlock work, write
  authorities, supervisor). Where the code borrows
  an owner exclusively (a prepared Add), the model enables only the borrower's steps.

## What the proofs show about the code

- Compaction of the authorization tables can be blocked. Attempt rows reference opening rows with foreign
  keys enforced (`crates/storage-sqlcipher/src/schema.rs:45`), so an expired Reserved opening that has both
  a terminal and a live attempt makes the whole compaction fail and roll back, and with it every issue and
  every reservation. `AuthInvariant.CompactionDecided` states exactly when, and
  `AuthInstances.RetryBlocksCompaction` reaches such a store by abandoning one attempt and reserving another.
- The block can be permanent. A seeded commit may use the transaction id of an attempt whose outcome is
  unknown, and a membership may begin under an id that is already joined. Such an attempt is refused with
  Conflict by every later recovery and is never removed (`AuthStranded.StrandedForGood`), and if its
  invitation has a finished attempt too, compaction never succeeds again once the invitation has expired
  (`AuthStranded.BlockedForGood`). `AuthStranded.StrandedIffSeeded` and `AuthStranded.BeginStrandsIffJoined`
  give the exact conditions and `AuthInstances.StrandedStoreReachable` a run.
- In reachable states recovery never finds an agreeing join row for an outcome-unknown attempt
  (`AuthSteps.UnknownHasNoJoin`), because the authorized commit writes both tables or neither.
  `AuthRecovery.OutcomeFollowsJoinRow` holds without that assumption.
- The reopening check that abandoned attempts have no join row is not implied by the operations alone: a
  seeded commit may reuse such an attempt's transaction id. A reachable store passes the checks exactly when
  that has not happened to an attempt still stored (`AuthRecovery.ReachableTablesReopen`), and recovery
  repeats its answer exactly when it has not happened since (`AuthRecovery.RecoveryRepeats`).
  `AuthRecovery.SeededCommitDecides` decides one commit and `AuthInstances.TakeoverBreaksReopening` is a run
  from an empty store that ends in tables that do not reopen.
- The third generation check of unlock work comes before the key is unsealed and is not atomic with it, so
  a lock between the two still yields a key; its completion is refused (`UnlockWork.LockAfterLastCheck`).
- The comment on `arm` says that a prior plan must be disabled or reset first. The code refuses a second
  plan until reset even after it was disabled (`FaultVfs.ArmingNeedsReset`); the model follows the code.
- `lease_next` answers Conflict when the first waiting item's outbox expires inside the requested lease
  window, even if later items would fit (`InviterLaws.LeaseNextAnswers`; `InviterInstances.FirstWelcomeHidesLater` is
  a run that gets there).

## Model

| member | source | states |
|---|---|---|
| `Cbor.HeadRoundTrip` | crates/session-protocol/src/lib.rs:125-136 | A shortest CBOR head (section 4.2.1 of RFC 8949) is read back as its argument by the tolerant head decoder, wherever it stands in the input |
| `Cbor.HeadReencoding` | crates/session-protocol/src/lib.rs:190-198 | Re-encoding a head the tolerant decoder accepted never grows it, and reproduces it when it was already shortest |
| `Cbor.ListRoundTrip` | crates/session-protocol/src/protected_join.rs:680-714 | Decoding a field list at any offset of any input that holds its encoding gives the items back and stops right behind them |
| `Cbor.ListReencoding` | crates/session-protocol/src/protected_join.rs:796-806 | After a tolerant parse the re-encoding is never longer than what was read, has equal length iff every head was shortest, and then holds the same bytes |
| `Cbor.Encode` | crates/session-protocol/src/protected_join.rs:384-396 | The buffer-appending loop produces exactly the field-list encoding |
| `Cbor.Decode` | crates/session-protocol/src/protected_join.rs:398-426 | The position-advancing loop produces exactly the field-list parse, with the first refusal met |
| `WireObjects.ReencodingDecides` | crates/session-protocol/src/lib.rs:186-198 | After a parse that used every byte, re-encoding equals the input iff no head was longer than necessary |
| `WireObjects.EnvelopeCodec` | crates/session-protocol/src/lib.rs:125-198 | `decode(input) == Ok(e)` iff `e` is constructible and `input` is its one encoding |
| `WireObjects.EnvelopeAlwaysEncodes` | crates/session-protocol/src/lib.rs:81-145 | Every envelope its constructor accepts encodes within the wire bound and within the vault's outer bound |
| `WireObjects.EnvelopeNonDeterministic` | crates/session-protocol/src/lib.rs:149-198 | The non-deterministic error is raised exactly for inputs that parse completely, but with some head longer than necessary |
| `WireObjects.EndpointCodec` | crates/session-protocol/src/protected_join.rs:301-426 | Same iff for the deposit endpoint, which always encodes within its 128 bytes |
| `WireObjects.ProtectedSize` | crates/session-protocol/src/protected_join.rs:10-14 | The encoded size is 72 bytes, the ciphertext head and the ciphertext; the largest ciphertext fills the bound to the byte, so the 75-byte overhead is tight |
| `WireObjects.ProtectedCodec` | crates/session-protocol/src/protected_join.rs:123-266 | Same iff for the protected join request, which always encodes |
| `WireObjects.CapabilitySize` | crates/session-protocol/src/protected_join.rs:707-714 | Exact size of the inner join request with its nested endpoint; every constructible one fits its bound |
| `WireObjects.CapabilityCodec` | crates/session-protocol/src/protected_join.rs:546-806 | Same iff for the inner join request with its nested endpoint, under any key check; every constructible one encodes |
| `Invitation.CheckClaims` | crates/session-protocol/src/invitation.rs:204-231 | The claim checks succeed iff the claims are constructible |
| `Invitation.SizeV1` | crates/session-protocol/src/invitation.rs:356-377 | Every version 1 invitation stays below the 512-byte bound |
| `Invitation.SizeV2` | crates/session-protocol/src/invitation.rs:603-623 | Every version 2 invitation stays below the 512-byte bound |
| `Invitation.CodecV1` | crates/session-protocol/src/invitation.rs:356-466 | Under any signature scheme, decode-and-verify accepts exactly the encodings of constructible invitations whose signature verifies over their signing input |
| `Invitation.CodecV2` | crates/session-protocol/src/invitation.rs:603-722 | The same for version 2 |
| `Invitation.SigningInputV1IsInjective` | crates/session-protocol/src/invitation.rs:725-767 | A version 1 signing input determines every claim and the key |
| `Invitation.SigningInputV2IsInjective` | crates/session-protocol/src/invitation.rs:769-819 | A version 2 signing input determines every claim and all three keys |
| `Invitation.SigningInputsNeverCoincide` | crates/session-protocol/src/invitation.rs:11-12 | No version 1 signing input equals a version 2 one |
| `InviterLaws.ReachableStoresAreSound` | crates/session-inviter-transaction/src/lib.rs:458-823 | In every state a fresh store can reach: bounds hold, reserved and committed invitation ids are disjoint, committed invitation and request ids are pairwise distinct, Pending means attempts remain, a live lease ends by the outbox expiry, retired pairs are distinct and not live |
| `InviterLaws.CommitIsAtomic` | crates/session-inviter-transaction/src/lib.rs:543-615 | Every error but the unknown outcome leaves the store unchanged; the unknown outcome is exactly an unfaulted success, and leaves its state |
| `InviterLaws.RetryIsExact` | crates/session-inviter-transaction/src/lib.rs:551-557 | After a commit took effect and any steps ran, the same input is AlreadyCommitted and other content under its id is Conflict (or InvalidInput), at every time and under every fault, changing nothing |
| `InviterLaws.SequencesAreNeverReused` | crates/session-inviter-transaction/src/lib.rs:723-727 | The k-th lease of any run carries the k-th number from the counter on |
| `InviterLaws.LeasesAreFenced` | crates/session-inviter-transaction/src/lib.rs:741-823 | Of two leases handed out for one transaction in any run, the earlier can never read, fail or complete again |
| `InviterLaws.OneLiveLease` | crates/session-inviter-transaction/src/lib.rs:754-766 | At any moment at most one lease of a transaction can read, and reading agrees with being able to complete |
| `InviterLaws.RunEvolves` | crates/session-inviter-transaction/src/lib.rs:772-823 | In any run a committed join keeps its content, Delivered and AttemptsExhausted are final, and attempts grow exactly by the leases handed out |
| `InviterLaws.DeliveryIsBounded` | crates/session-inviter-transaction/src/lib.rs:719-732 | Over any run of a fresh store the leases of a transaction equal its attempts and never exceed the maximum |
| `InviterLaws.LiveLeaseEndsInTime` | crates/session-inviter-transaction/src/lib.rs:851-860 | Every live lease in a reachable store ends no later than its outbox, its envelope and its endpoint |
| `InviterLaws.RetiredIsRecentHistory` | crates/session-inviter-transaction/src/lib.rs:472-484 | The retired queue is always the last 4096 retirements of the run, in order |
| `InviterLaws.SeedEvictsOnlyExpired` | crates/session-inviter-transaction/src/lib.rs:487-540 | Seeding drops another reservation iff the store is full, the id is new, and that reservation has the least (expiry, id) among the expired; all others stay as they are |
| `InviterLaws.HandOutIsLease` | crates/session-inviter-transaction/src/lib.rs:914-920 | A lease just taken can always be read, so the outbox port never has to give it back |
| `InviterLaws.LeaseNextAnswers` | crates/session-inviter-transaction/src/lib.rs:876-927 | For well-formed requests: None iff nothing waits; otherwise the first waiting id with its committed bytes, refused iff that lease does not fit before its outbox expiry or the counter is used up |
| `InviterInstances.FirstWelcomeHidesLater` | crates/session-inviter-transaction/src/lib.rs:876-927 | A run from an empty store after which leasing the next Welcome for 60 seconds is refused with Conflict although another waiting one can be leased for that long |
| `InMemoryStore.InMemoryInviterJoinStore.SeedReservation` | crates/session-inviter-transaction/src/lib.rs:487-540 | Seeding retires at most one expired reservation, its own predecessor or the scanned victim, and inserts one, or changes nothing |
| `InMemoryStore.InMemoryInviterJoinStore.OldestExpired` | crates/session-inviter-transaction/src/lib.rs:517-524 | The scan finds the expired reservation with the least (expiry, id), or reports that none is expired |
| `InMemoryStore.InMemoryInviterJoinStore.ValidateCommit` | crates/session-inviter-transaction/src/lib.rs:831-862 | The sequence of input checks accepts exactly the valid commits |
| `InMemoryStore.InMemoryInviterJoinStore.CommitWithFault` | crates/session-inviter-transaction/src/lib.rs:543-615 | Every branch of the commit, in order and for every fault, has the effect and answer of the commit function |
| `InMemoryStore.InMemoryInviterJoinStore.LeaseDelivery` | crates/session-inviter-transaction/src/lib.rs:680-738 | A lease is taken, numbered and counted, or refused in the order of the code; running out of attempts is recorded |
| `InMemoryStore.InMemoryInviterJoinStore.ReadPayload` | crates/session-inviter-transaction/src/lib.rs:741-769 | Only a live lease of this store reads, and it reads the committed bytes |
| `InMemoryStore.InMemoryInviterJoinStore.FailDelivery` | crates/session-inviter-transaction/src/lib.rs:772-792 | Only the current lease gives up, leaving the record Pending or, with attempts used up, exhausted |
| `InMemoryStore.InMemoryInviterJoinStore.CompleteDelivery` | crates/session-inviter-transaction/src/lib.rs:795-823 | Only a live lease completes, and completing again with it is accepted without change |
| `InMemoryStore.InMemoryInviterJoinStore.SweepExhausted` | crates/session-inviter-transaction/src/lib.rs:887-903 | The loop marks exactly the records whose attempts ran out while nobody holds them |
| `InMemoryStore.InMemoryInviterJoinStore.FirstPending` | crates/session-inviter-transaction/src/lib.rs:655-677 | The scan finds the first pending id in key order, or none iff nothing is pending |
| `InMemoryStore.InMemoryInviterJoinStore.LeaseNextWelcome` | crates/session-inviter-transaction/src/lib.rs:876-927 | Sweep, scan, lease and read together equal the port function |
| `InMemoryStore.InMemoryInviterJoinStore.ReportAccepted` | crates/session-inviter-transaction/src/lib.rs:929-936 | Completion through the port; an error is Conflict and changes nothing |
| `InMemoryStore.InMemoryInviterJoinStore.ReportFailed` | crates/session-inviter-transaction/src/lib.rs:938-940 | Failure through the port; an error is Conflict and changes nothing |
| `Mailbox.AcceptanceIsFixed` | crates/session-transport/src/lib.rs:315-433 | In any run that does not draw its id again, a mailbox keeps the identity and delivery id it first accepted, and stays consumed once consumed, until it is gone for good |
| `Mailbox.GoneForGood` | crates/session-transport/src/lib.rs:262-265 | With freshly drawn ids a mailbox that is gone never comes back |
| `Mailbox.AcknowledgedStaysUnreadable` | crates/session-transport/src/lib.rs:404-433 | After an acknowledgement no later receive, by any right at any time, yields an envelope from that mailbox, unless its id is drawn again |
| `Mailbox.RunKeepsHonest` | crates/session-transport/src/lib.rs:341-364 | In every run an envelope still held is the one whose id and digest were accepted |
| `Mailbox.DepositAccepts` | crates/session-transport/src/lib.rs:315-365 | A successful deposit leaves exactly that envelope's identity accepted under the answered delivery id |
| `Mailbox.DepositIsIdempotent` | crates/session-transport/src/lib.rs:345-356 | Depositing the same envelope again changes nothing and repeats the delivery id, whatever is drawn |
| `Mailbox.RightsAreSeparate` | crates/session-transport/src/lib.rs:242-312 | A new mailbox opens for its own rights; the receive right cannot acknowledge and the acknowledgement right cannot receive |
| `Mailbox.CreationIsBounded` | crates/session-transport/src/lib.rs:253-260 | Creation never leaves more mailboxes than the policy allows |
| `LocalTransport.LocalMemoryWelcomeTransport.RetainUnexpired` | crates/session-transport/src/lib.rs:299-300 | The loop keeps exactly the unexpired mailboxes |
| `LocalTransport.LocalMemoryWelcomeTransport.CreateWelcomeMailbox` | crates/session-transport/src/lib.rs:242-312 | The mutating method equals the creation function, for every outcome of the random source |
| `LocalTransport.LocalMemoryWelcomeTransport.DepositEnvelope` | crates/session-transport/src/lib.rs:315-365 | The first admitted envelope is accepted under a drawn id, the same one again gets that id, any other is refused |
| `LocalTransport.LocalMemoryWelcomeTransport.ReceiveEnvelope` | crates/session-transport/src/lib.rs:368-401 | Only the receive right reads, and an expired envelope is dropped on the way |
| `LocalTransport.LocalMemoryWelcomeTransport.AcknowledgeDelivery` | crates/session-transport/src/lib.rs:404-433 | Only the acknowledgement right with the accepted delivery id takes the envelope out |
| `Coordinator.DepositOnce` | crates/session-transport/src/lib.rs:478-510 | The adapter's deposit, with its two checkpoints, equals the dispatch function |
| `Coordinator.PrepareWork` | crates/session-transport/src/coordinator.rs:155-174 | Decoding and checking leased work step by step equals the preparation function |
| `Coordinator.ReleaseInvalid` | crates/session-transport/src/coordinator.rs:206-214 | A pass that cannot deposit gives its lease back, and reports the store's refusal if it cannot |
| `Coordinator.RunOnce` | crates/session-transport/src/coordinator.rs:123-203 | One pass over the two mutable owners equals the pass function, wherever it fails or is dropped |
| `Delivery.StoreSeesRun` | crates/session-transport/src/coordinator.rs:144-202 | In every run of store calls, mailbox calls and passes, the store runs its own steps, so every store law holds of it |
| `Delivery.DepositsCarryCommittedBytes` | crates/session-transport/src/coordinator.rs:153-182 | Every deposit ever made for a transaction carries its byte-identical committed Welcome, to its committed endpoint |
| `Delivery.OneEffectPerMailbox` | crates/session-transport/src/lib.rs:341-364 | In any run that draws its id at most once, all accepted deposits into one mailbox carry the same bytes and got the same delivery id |
| `Delivery.IdentityIsFixed` | crates/session-transport/src/lib.rs:345-364 | In any run of the whole system that does not draw its id again, a mailbox keeps the identity and delivery id it accepted, until it is gone |
| `Delivery.AcknowledgedNeverReturns` | crates/session-transport/src/lib.rs:404-433 | After an acknowledgement, whatever passes retry and redeposit, no receive ever yields an envelope from that mailbox again, unless its id is drawn again |
| `Delivery.AcceptedMeansDelivered` | crates/session-transport/src/coordinator.rs:182-195 | A pass that returns Accepted leaves the record Delivered, and the mailbox of the committed endpoint holding exactly the committed bytes under the receipt's id |
| `Delivery.DepositsAreBounded` | crates/session-transport/src/coordinator.rs:123-203 | However passes fail, drop or repeat, a transaction is deposited at most as often as delivery attempts are allowed |
| `Delivery.NothingAfterFinal` | crates/session-inviter-transaction/src/lib.rs:654-677 | Once a record is Delivered or exhausted, no later pass deposits for it |
| `Delivery.OwnerWorkIsValid` | crates/session-transport/src/coordinator.rs:155-174 | For committed work a pass reports invalid owner work iff the Welcome exceeds the network budget |
| `AuthInvariant.CompactionDecided` | crates/storage-sqlcipher/src/authorization.rs:914-960 | Compaction fails iff some expired Reserved opening also has an expired terminal attempt; otherwise it keeps exactly the live or unexpired attempts and the Reserved or unexpired openings |
| `AuthInvariant.BlockedByExpiredLive` | crates/storage-sqlcipher/src/authorization.rs:918-937 | Whenever compaction fails there is a live attempt that has itself expired; resolving those unblocks it |
| `AuthInvariant.KeptIsCoupled` | crates/storage-sqlcipher/src/authorization.rs:914-960 | Compaction keeps the coupling of the tables, at any clock |
| `AuthInvariant.ReservedMeansOneLive` | crates/storage-sqlcipher/src/authorization.rs:978-1008 | In coupled tables an opening is Reserved iff a live attempt exists, and then exactly one |
| `AuthInvariant.ConsumedOnce` | crates/storage-sqlcipher/src/authorization.rs:805-821 | In coupled tables a generation has at most one committed attempt |
| `AuthLaws.NextKeepsCoupled` | crates/storage-sqlcipher/src/authorization.rs:158-846 | Every operation, at any clock and with any protector, keeps the four tables coupled |
| `AuthLaws.ReachableTablesAreCoupled` | crates/storage-sqlcipher/src/authorization.rs:158-846 | The coupling holds in every reachable state, provided issued generations are fresh |
| `AuthSteps.UnknownHasNoJoin` | crates/storage-sqlcipher/src/transactions.rs:169-283 | An outcome-unknown attempt never has an agreeing join row: the commit writes both or neither |
| `AuthHistory.KeptForgetsWhole` | crates/storage-sqlcipher/src/authorization.rs:938-957 | A compaction that drops an attempt drops that generation's opening with it |
| `AuthHistory.ReplayFreedom` | crates/storage-sqlcipher/src/authorization.rs:181-199 | Over any run, at any clocks, all requests ever admitted for one generation differ in request id, nonce and fingerprint |
| `AuthHistory.AdmittedRequestsDiffer` | crates/storage-sqlcipher/src/authorization.rs:158-327 | Replay freedom from an empty store |
| `AuthHistory.AttemptsMoveForward` | crates/storage-sqlcipher/src/authorization.rs:347-846 | In any run an attempt only moves forward along its lifecycle and keeps its transaction, until its generation is closed for good |
| `AuthHistory.ConsumedForGood` | crates/storage-sqlcipher/src/authorization.rs:805-840 | A consumed generation is never consumed by another attempt in any later state |
| `AuthLaws.AbandonOneMore` | crates/storage-sqlcipher/src/authorization.rs:642-675 | In coupled tables each release of the recovery loop finds its opening still Reserved and untouched by the earlier ones |
| `AuthRecovery.RecoverPreDecided` | crates/storage-sqlcipher/src/authorization.rs:600-678 | Restart recovery abandons every stale attempt or changes nothing; it refuses iff the open store still owes a handle; repeating it does nothing |
| `AuthRecovery.OutcomeFollowsJoinRow` | crates/storage-sqlcipher/src/authorization.rs:684-846 | An unknown outcome resolves to Committed iff the join row carries its four bindings, to Abandoned iff there is no join row, and is refused otherwise |
| `AuthRecovery.RecoveryRepeats` | crates/storage-sqlcipher/src/authorization.rs:684-846 | A recovered outcome is answered the same way, changing nothing, in every later state with its generation open, iff it was not Abandoned or no seeded commit since inserted a join row under its transaction id |
| `AuthRecovery.RecoveryIsIdempotent` | crates/storage-sqlcipher/src/authorization.rs:772-797 | Recovering again right away gives the same answer and changes nothing, from any state, at any time and for any protector |
| `AuthRecovery.ResolvedForGood` | crates/storage-sqlcipher/src/authorization.rs:772-797 | In any run a resolved attempt's row stays as it is while its generation is open, and an abandoned one's transaction id gets a join row iff a seeded commit inserts one under it |
| `AuthRecovery.JoinsStay` | crates/storage-sqlcipher/src/transactions.rs:169-283 | A stored join row is never changed or removed by any run |
| `AuthRecovery.RunKeepsLive` | crates/storage-sqlcipher/src/authorization.rs:319-326 | In every run the handles an open store owes name attempts in the state they are for |
| `AuthRecovery.SeededCommitDecides` | crates/storage-sqlcipher/src/schema.rs:655-661 | A seeded commit keeps abandoned attempts free of join rows iff no abandoned attempt carries its transaction id |
| `AuthRecovery.AbandonUndoesReserve` | crates/storage-sqlcipher/src/authorization.rs:1095-1165 | Abandoning a reservation in time restores the opening row exactly; too late or not restorable, it becomes Unusable with its key erased |
| `AuthRecovery.EndTouchesOnlyItsOwn` | crates/storage-sqlcipher/src/authorization.rs:978-1008 | A handle ends only its own attempt, in the expected state, and frees only that attempt's opening; all other rows stay |
| `AuthRecovery.AuthorizedCommitIsExact` | crates/storage-sqlcipher/src/authorization.rs:1010-1054 | An authorized commit takes effect iff attempt, transaction, the four bindings, leaf and both expiries are those it was authorized for, nothing clashes and no earlier fault is injected |
| `AuthRecovery.JoinedAtMostOnce` | crates/storage-sqlcipher/src/schema.rs:88-91 | Over any run an invitation is joined by at most one transaction, and so is a request |
| `AuthRecovery.ReachableTablesReopen` | crates/storage-sqlcipher/src/schema.rs:528-692 | A state reached from an empty store passes the row checks made when it is opened iff no abandoned attempt in it carries a transaction id under which a seeded commit of the run inserted a join row |
| `AuthStranded.RecoveryRefusedIffStranded` | crates/storage-sqlcipher/src/authorization.rs:684-846 | In coupled tables an unknown outcome is recovered as Abandoned, and refused with Conflict iff its transaction id has a join row |
| `AuthStranded.StrandedForGood` | crates/storage-sqlcipher/src/authorization.rs:684-846 | An outcome-unknown attempt whose transaction id has a join row keeps its row in every later state, and no recovery of it, whatever its arguments, takes effect |
| `AuthStranded.BlockedForGood` | crates/storage-sqlcipher/src/authorization.rs:914-960 | If its invitation also has a finished attempt, then in every later state compaction fails at every time from the invitation's expiry on, every issue is Rejected and every reserve refused, unchanged |
| `AuthStranded.StrandedIffSeeded` | crates/storage-sqlcipher/src/transactions.rs:78-91 | Over any run that leaves an attempt's outcome unknown, it is stranded iff a seeded commit of the run inserted a join row under its transaction id |
| `AuthStranded.BeginStrandsIffJoined` | crates/storage-sqlcipher/src/authorization.rs:396-464 | Beginning a membership strands its attempt at once iff the transaction id is already joined |
| `AuthInstances.RetryBlocksCompaction` | crates/storage-sqlcipher/src/authorization.rs:914-960 | A run from an empty store (issue, reserve, abandon, reserve again) after which, at the invitation's expiry, compaction fails and a fresh issue is Rejected |
| `AuthInstances.StrandedStoreReachable` | crates/storage-sqlcipher/src/transactions.rs:78-91 | A run from an empty store after which an attempt is stranded and, whatever follows, compaction fails at every time from 100 on |
| `AuthInstances.TakeoverBreaksReopening` | crates/storage-sqlcipher/src/schema.rs:655-661 | A run from an empty store whose tables fail the checks made when the store is opened |
| `AuthStore.SqlCipherStorage.CompactExpired` | crates/storage-sqlcipher/src/authorization.rs:914-960 | The four statements in order equal the compaction function |
| `AuthStore.SqlCipherStorage.IssueInvitation` | crates/storage-sqlcipher/src/authorization.rs:856-899 | Issuing compacts, checks capacity and uniqueness on the compacted rows, and inserts one Available opening, or changes nothing |
| `AuthStore.SqlCipherStorage.LoadInvitation` | crates/storage-sqlcipher/src/authorization.rs:55-132 | Reading back hands out only an Available, unexpired, restorable invitation, and otherwise makes an Available one Unusable with its key erased |
| `AuthStore.SqlCipherStorage.ReserveAuthorization` | crates/storage-sqlcipher/src/authorization.rs:158-327 | Reserving inserts one pending attempt and turns its opening Reserved in one transaction, with every refusal in the order of the code; only a broken invitation changes a row on refusal |
| `AuthStore.SqlCipherStorage.EndAuthorization` | crates/storage-sqlcipher/src/authorization.rs:467-597 | Abandoning and rejecting end the handle's own attempt and release its opening together, or change nothing |
| `AuthStore.SqlCipherStorage.ApproveAuthorization` | crates/storage-sqlcipher/src/authorization.rs:347-393 | Approval moves a timely pending attempt on; an expired one is abandoned and its opening released instead |
| `AuthStore.SqlCipherStorage.BeginMembershipAuthorization` | crates/storage-sqlcipher/src/authorization.rs:396-464 | Membership binds an unused transaction id to a timely approved attempt and moves its handle over; an expired one is abandoned instead |
| `AuthStore.SqlCipherStorage.RecoverPreMembership` | crates/storage-sqlcipher/src/authorization.rs:600-678 | The row-by-row loop changes everything or nothing, and in coupled tables equals abandoning all stale attempts and releasing all their openings at once |
| `AuthStore.SqlCipherStorage.RecoverAuthorizationOutcome` | crates/storage-sqlcipher/src/authorization.rs:684-846 | Recovery resolves an unknown outcome and its opening together from the join row, and only reports resolved ones |
| `AuthStore.SqlCipherStorage.CommitAuthorizedInviter` | crates/storage-sqlcipher/src/transactions.rs:64-290 | The statements of an authorized membership commit equal the commit function, for every injected fault |
| `AuthStore.SqlCipherStorage.SeedInviterReservation` | crates/storage-sqlcipher/src/lib.rs:728-764 | Seeding inserts a reservation only where neither a durable opening of that generation nor a reservation of that invitation exists |
| `AuthStore.SqlCipherStorage.CommitSeededInviter` | crates/storage-sqlcipher/src/transactions.rs:78-290 | A commit without durable authorization consumes exactly a matching unexpired seeded reservation and inserts its join, or changes nothing |
| `FaultVfs.MonitorAndCheckerAgree` | crates/storage-sqlcipher-fault-vfs/src/controller.rs:556-816 | For every sequence of reset, arm, disable and observe: the checker accepts iff nothing overflowed, every role fits its evidence, and the plan, if any, met its exact target while armed |
| `FaultVfs.OneShotOnce` | crates/storage-sqlcipher-fault-vfs/src/controller.rs:570-588 | A one-shot plan fires at most once in any recorded trace |
| `FaultVfs.HitsAreFirings` | crates/storage-sqlcipher-fault-vfs/src/controller.rs:786-803 | In a recorded trace an event shows the plan's effect iff the plan fired on it while armed |
| `FaultVfs.ArmingNeedsReset` | crates/storage-sqlcipher-fault-vfs/src/controller.rs:508-517 | A plan is accepted iff none was armed since the last reset, whether or not it was disabled |
| `FaultVfs.CodesAgree` | crates/storage-sqlcipher-fault-vfs/src/controller.rs:109-135 | Injected codes are pairwise different and agree with the fail-closed code of the operation they support |
| `FaultVfs.Validate` | crates/storage-sqlcipher-fault-vfs/src/controller.rs:695-712 | The validating loop with its counter table accepts exactly the declaratively acceptable snapshots; the 16-bit counters never saturate |
| `FaultVfs.ReachedBy` | crates/storage-sqlcipher-fault-vfs/src/controller.rs:786-816 | The filtering loop decides exactly whether the plan was reached |
| `FaultVfs.Controller.Reset` | crates/storage-sqlcipher-fault-vfs/src/controller.rs:503-506 | Reset forgets events, counts, overflow and plan |
| `FaultVfs.Controller.ArmPlan` | crates/storage-sqlcipher-fault-vfs/src/controller.rs:509-517 | A plan is armed iff the controller holds none; otherwise nothing changes |
| `FaultVfs.Controller.ObserveOperation` | crates/storage-sqlcipher-fault-vfs/src/controller.rs:556-604 | Observation with the counter table equals observation by counting the recorded events |
| `VaultLaws.ReachableVaultsAreSound` | crates/session-storage/src/lib.rs:726-1104 | In every reachable vault the shared generation is nonzero iff it is unlocking with it, the byte counter is the sum of stored encodings, count and bytes are within policy, and every record decodes to its own key and expiry |
| `VaultLaws.DeadTokensDoNothing` | crates/session-storage/src/lib.rs:790-805 | Once a generation is no longer held, no completion for it opens the vault and no import for it removes inbox data, in any later state |
| `VaultLaws.LockEndsGeneration` | crates/session-storage/src/lib.rs:868-937 | A forced lock, a timeout and a begun relock each end the held generation |
| `VaultLaws.OpeningNeedsCurrentGeneration` | crates/session-storage/src/lib.rs:790-834 | Only a timely completion of the current generation opens the vault, and it does so once |
| `UnlockWork.KeyMeansUninterrupted` | crates/session-storage/src/lib.rs:609-657 | In every interleaving with the vault, unlock work yields a key only if the vault was unlocking with its generation without interruption until the third check, so also when the credential was acquired |
| `UnlockWork.BegunWorkIsCovered` | crates/session-storage/src/lib.rs:762-787 | The same for work begun by the vault itself, from the moment it was begun |
| `UnlockWork.OverNeverPasses` | crates/session-storage/src/lib.rs:617-640 | Once the generation is over before the third check, the work never unseals a key, whatever follows |
| `UnlockWork.LockAfterLastCheck` | crates/session-storage/src/lib.rs:634-641 | A lock between the third check and the unsealing still yields a key, and its completion is refused in every later state |
| `UnlockWork.GenerationsRise` | crates/session-storage/src/lib.rs:762-889 | Along any run every begun unlock and relock gets a generation above all earlier ones, so no two share one |
| `VaultLaws.ImportAlwaysDecodes` | crates/session-storage/src/lib.rs:996-1025 | Import never meets a record it cannot decode: the first stored envelope is handed out under its own id |
| `VaultLaws.OuterBoundIsSufficient` | crates/session-storage/src/lib.rs:943-960 | The inbox's outer bound refuses no canonical envelope |
| `VaultLaws.ImportedAtMostOnce` | crates/session-storage/src/lib.rs:1031-1066 | Each stored insertion is completed at most once, even when the same envelope id is stored again |
| `VaultModel.SessionVaultModel.PruneExpired` | crates/session-storage/src/lib.rs:1088-1103 | The pruning loop keeps exactly the unexpired records and the exact byte total; its saturating subtraction never saturates |
| `VaultModel.SessionVaultModel.PollAt` | crates/session-storage/src/lib.rs:917-937 | Polling seals a timed-out vault, clears the shared generation and prunes the inbox, keeping the invariant |
| `VaultModel.SessionVaultModel.BeginUnlockAt` | crates/session-storage/src/lib.rs:762-787 | Unlocking starts only from Sealed, under a new generation that it shares; a used-up clock still uses the generation up |
| `VaultModel.SessionVaultModel.CompleteUnlockAt` | crates/session-storage/src/lib.rs:790-834 | A foreign or stale completion changes nothing; a matching one ends the unlock and opens only if in time and sufficient |
| `VaultModel.SessionVaultModel.PerformPrivilegedAt` | crates/session-storage/src/lib.rs:839-865 | Only the open session acts, and acting moves its idle expiry |
| `VaultModel.SessionVaultModel.BeginRelockAt` | crates/session-storage/src/lib.rs:868-889 | Only the open session starts a relock, under a new generation |
| `VaultModel.SessionVaultModel.CompleteRelockWith` | crates/session-storage/src/lib.rs:892-905 | Only the matching relock seals |
| `VaultModel.SessionVaultModel.ForceLockNow` | crates/session-storage/src/lib.rs:908-914 | A forced lock seals from any state and clears the shared generation |
| `VaultModel.SessionVaultModel.AppendOpaque` | crates/session-storage/src/lib.rs:943-993 | An admissible new envelope is stored and counted, the same again is recognised, a different one under its id is refused; the invariant is kept |
| `VaultModel.SessionVaultModel.BeginOpaqueImport` | crates/session-storage/src/lib.rs:996-1025 | The open session gets the first stored envelope, tied to its generation and insertion |
| `VaultModel.SessionVaultModel.CompleteOpaqueImport` | crates/session-storage/src/lib.rs:1031-1066 | Only a token of the current open generation and insertion removes its record and its bytes |
| `Limiter.CounterIsExact` | crates/session-storage/src/lib.rs:471-513 | In every interleaving of loads, compare-and-swaps and releases the counter equals the live permits, stays within the maximum and never underflows |
| `Limiter.RefusalSawFull` | crates/session-storage/src/lib.rs:472-476 | Whoever comes to be refused saw every permit in use at some step of the run |
| `AdmissionLaws.ApplyIsAllOrNothing` | crates/admission-capability/src/lib.rs:540-570 | Applying a prepared Add either returns a result with the invitation Consumed and the replay entry kept, or none with the entry gone and the invitation free again unless expired; consumption after the checks cannot fail |
| `AdmissionLaws.ApplyAwaitingHolds` | crates/admission-capability/src/lib.rs:584-626 | The durable form holds both reservations untouched on success and gives both back otherwise |
| `AdmissionLaws.SettlementsSucceed` | crates/admission-capability/src/lib.rs:755-774 | Both settlements of an applied Add always succeed, with exactly the promised effect |
| `AdmissionLaws.ApprovalReservesOrReleases` | crates/admission-capability/src/lib.rs:213-263 | Asking for approval reserves the invitation for exactly that request, or takes out the replay entry and changes nothing else |
| `AdmissionLaws.DecisionKeepsOrReleases` | crates/admission-capability/src/lib.rs:269-312 | A decision keeps both reservations iff it approves in time; otherwise both are given back |
| `AdmissionLaws.PreparationHoldsOrReleases` | crates/admission-capability/src/lib.rs:315-379 | A preparation holds both reservations, ready to apply, or gives both back |
| `AdmissionLaws.RunKeepsInv` | crates/admission-capability/src/lib.rs:113-412 | Over every run under the borrow discipline: the ledger is bounded, ordered and replay-free, the registry is bounded, and a borrow keeps its reservations |
| `AdmissionLaws.RemoveTakesOne` | crates/admission-capability/src/lib.rs:381-399 | Removing a reservation takes out exactly that one entry |
| `AdmissionLaws.ConsumedForGood` | crates/session-core/src/lib.rs:439-461 | A consumed invitation stays consumed until an issue happens at or after its expiry |
| `AdmissionOwners.InvitationRegistry.Issue` | crates/session-core/src/lib.rs:538-610 | Issuing drops expired records and adds one Available record, within capacity and only over a dead id, or changes nothing; the three time refusals come first, in order and with their values |
| `AdmissionOwners.InvitationRegistry.Reserve` | crates/session-core/src/lib.rs:369-406 | Reserving turns exactly the matching Available record Reserved for that request, or changes nothing, with every refusal in order |
| `AdmissionOwners.InvitationRegistry.Settle` | crates/session-core/src/lib.rs:409-461 | Release and consumption move a record iff it is validly reserved by that owner, and otherwise change nothing |
| `AdmissionOwners.CapabilityAdmissionVerifier.VerifyAndReserveAt` | crates/admission-capability/src/lib.rs:113-193 | A timely request that clashes with no unexpired entry is appended to the unexpired ledger under a new number; otherwise nothing changes |
| `AdmissionOwners.CapabilityAdmissionVerifier.Remove` | crates/admission-capability/src/lib.rs:381-399 | The scan removes the first entry of exactly that reservation, or changes nothing |
| `AdmissionOwners.PreparedAddition.GiveBack` | crates/admission-capability/src/lib.rs:814-830 | Dropping a prepared Add gives both reservations back |
| `AdmissionOwners.PreparedAddition.ApplyAt` | crates/admission-capability/src/lib.rs:540-570 | Applying over the two mutable owners equals the apply function |
| `AdmissionOwners.PreparedAddition.ApplyAwaitingAt` | crates/admission-capability/src/lib.rs:584-626 | On success both reservations pass to a settlement untouched; otherwise both are given back |
| `AdmissionOwners.Settlement.Finalize` | crates/admission-capability/src/lib.rs:757-761 | Consumes the invitation at the moment of application |
| `AdmissionOwners.Settlement.ReleaseProvenUncommitted` | crates/admission-capability/src/lib.rs:764-773 | Gives both reservations back at the moment of application |
| `MlsBinding.WrittenSnapshotIsTheAdd` | crates/session-crypto-mls/src/lib.rs:1453-1505 | Whatever ran in between: if staging and writing succeeds, the snapshot written is the provider state right after that Add, with its Welcome and Commit, and it cannot be written twice |
| `MlsBinding.StorageWaitsForTheAdd` | crates/session-crypto-mls/src/lib.rs:1324-1333 | While an Add is pending, what is stored changes only by a successful staged write |
| `MlsBinding.DurableGroup.Prepare` | crates/session-crypto-mls/src/lib.rs:1100-1171 | Preparing moves the revision before anything else; a full group or a duplicate identity leaves the provider untouched, a provider refusal keeps its error, and only a built commit holds the group |
| `MlsBinding.DurableGroup.Apply` | crates/session-crypto-mls/src/lib.rs:1453-1505 | Applying binds the Add to the revision right after it, or leaves no token; an unexpected result deactivates the group |
| `MlsBinding.DurableGroup.Write` | crates/session-crypto-mls/src/lib.rs:1327-1332 | A plain write stores the provider state iff no Add is pending |
| `MlsBinding.DurableGroup.StageAndWriteToStorage` | crates/session-crypto-mls/src/lib.rs:1744-1801 | A staged write stores and clears the pending Add iff the token names the current revision, group and epoch and every stage succeeds |
| `WriteDigest.PreimageIsInjective` | crates/session-crypto-mls/src/lib.rs:1668-1710 | Different writes, including reordered or regrouped epoch records, never share a digest preimage |
| `WriteDigest.UpdateEpochs` | crates/session-crypto-mls/src/lib.rs:1687-1700 | The loop feeds exactly the framed epoch records |
| `WriteDigest.AuthorizesExactlyTheCapture` | crates/session-crypto-mls/src/lib.rs:1586-1729 | While its guard is held, in every interleaving of threads, an activated authority admits exactly the first write of its own thread, asked about on that thread; before it and after the guard is dropped, nothing |
| `WriteDigest.RunKeepsMatched` | crates/session-crypto-mls/src/lib.rs:1586-1607 | In every interleaving each thread has at most one active authority and each authority one thread |
| `Supervisor.NoLostWakeup` | crates/session-transport/src/supervisor.rs:119-163 | In every interleaving, if a wake or cancellation comes after a poll began and no later poll began, the supervisor is not asleep |
| `Supervisor.CancellationEndsPolling` | crates/session-transport/src/supervisor.rs:46-57 | After cancellation the future is polled at most once more and the supervisor never sleeps again |
| `Rotation.ChainCounts` | crates/session-transport/src/lifecycle.rs:739-760 | Along any chain of accepted rotations continuity is kept and the generation counts the links |
| `Rotation.ChainSeparates` | crates/session-transport/src/lifecycle.rs:655-686 | All bindings of a chain are pairwise different |
| `Rotation.NeighboursDiffer` | crates/session-transport/src/lifecycle.rs:742-750 | Neighbouring generations never share a receive scope, and a routine drain ends before either expiry |
| `Rotation.GenerationsDoNotMix` | crates/session-transport/src/receive_state.rs:128-145 | A cursor or page of one generation of a chain never resumes or commits against another |
| `Rotation.PageCommitsOnlyWherePolled` | crates/session-transport/src/receive_state.rs:343-368 | A page is accepted only at the exact binding, revision and position it was polled from |
| `Rotation.PolledPageCommits` | crates/session-transport/src/receive_state.rs:353-367 | A page built for a poll always commits where it was polled, with all its ids to acknowledge |
| `Rotation.NewBatch` | crates/session-transport/src/contract.rs:567-603 | A batch is built iff count, distinct ids, expiry and byte budget hold; it is refused as expired iff an expired item comes before the budget runs out |
| `Rotation.HasDuplicate` | crates/session-transport/src/contract.rs:576-582 | The nested scan finds a repeated id iff there is one |

## Left out

- Cryptography and key derivation: HPKE, Ed25519, Argon2id, AES-GCM and SHA-256 are abstract functions.
- The MLS library: the provider's state is one opaque value that each call may change arbitrarily.
- SQLCipher itself, its key handling, pragmas, schema migrations and file layout: statements act on maps, and a failing statement rolls the whole transaction back.
- The joiner side of durable storage (`begin_joiner`), MLS epoch tables, and delivery leases of the SQL outbox.
- The staging slots between `stage_authorized_inviter` and the provider write: staging and commit are one atomic step that makes the commit-time checks.
- AuthStore.SqlCipherStorage.CommitAuthorizedInviter: the join row's remaining columns and the group state written with it are one opaque value, and input-length checks of the row are not repeated.
- AuthStore.SqlCipherStorage.CommitSeededInviter: the same simplification of the join row.
- AdmissionOwners.CapabilityAdmissionVerifier.VerifyAndReserveAt: whether the key package is valid and bound to the request is one parameter, because the MLS library decides it.
- VaultModel.SessionVaultModel.PerformPrivilegedAt: the privileged callback itself is not modelled, only when it may run and what it leaves behind.
- VaultModel.SessionVaultModel.CompleteUnlockAt: whether the protection suffices is a parameter; the ranking of protection levels is not modelled.
- Credential sources and protectors of unlock work: their answers are parameters of each action.
- Coordinator.RunOnce: retry advice inside transport failures is dropped; only the failure code is kept.
- Mailbox.AcceptanceIsFixed: assumes that this id is not drawn again, because a random draw that repeats the id of an expired mailbox opens an empty one.
- Delivery.OneEffectPerMailbox: assumes the same of its mailbox id.
- AuthHistory.ReplayFreedom: assumes that issued generations (invitation signatures) are fresh.
- Recovery views, counters and lifecycle queries that only read one field.
- The named-reachability and journal-baseline validations of the VFS trace, which add simple filters to `Validate`.
- Pause gates of the VFS: a pause is an outcome; the blocking handshake is not modelled.
- Mailbox issuance, resynchronization records, transport profiles, capability tagging and dispatch traits: field checks without a run property.
- The native VFS callbacks, the command-line application, native file handling and the site.
- Zeroization, redacted formatting and compile-time misuse tests.
