# Verified model of dal-service

dal-service is a replicated key-value service: data partitions and one meta group, each a Raft group,
with exactly-once client writes, move plans, cluster-wide maintenance, failure detection and search
generations. This project models its decision logic in Dafny and proves what that logic is for, over every
input, every committed log and every interleaving of the modelled steps. `dafny verify dfyconfig.toml`
checks all of it.

| file | what it models |
|---|---|
| `Types`, `Config` | wire and state types, cluster-shape validation |
| `DataStateMachine`, `Applier`, `CasHistory`, `SequenceHistory` | the data state machine, the coalesced apply path, compare-and-set histories, the answers of the sequence gate read back from the log |
| `ClientStream`, `ExactlyOnce` | client sequence streams, and their composition with a lossy, duplicating network and the sequence gate |
| `Keyspace`, `Snapshot` | key layouts and the snapshot stream format |
| `MetaStateMachine`, `MetaDecisions`, `MetaInvariants`, `Retries`, `Routing` | the meta state machine, when the guarded commands take effect, what every committed log keeps, why proposing again is harmless, routing snapshots |
| `MaintenanceLifecycle`, `MaintenanceHistory`, `MaintenanceCompletion`, `MaintenanceWedge` | the maintenance record, what must have been committed for it to stand, exactly when it can still be completed, and the operation that cannot |
| `Admission`, `Drain`, `GateProgress` | the node admission gate, the drain it and the record achieve together, and that gates follow the committed record |
| `Reconcile`, `MoveProtocol`, `PlanHistory`, `MoveDriver`, `MoveProgress` | the move gate, the move protocol under crashes, plans read back from the log, the drivers pass by pass, and that no plan is stuck |
| `Balancer`, `Convergence`, `Decommission` | the placement balancer, why it stops, and how a node leaves for good |
| `Failure`, `Detector`, `NodeLifecycle`, `DirectoryHistory` | the heartbeat tracker, the meaning of its decisions, no revival, and the directory read back from the log |
| `Bootstrap`, `Genesis` | seeding a cluster and the initial placements |
| `SearchReadiness`, `SearchHistory`, `SearchProgress` | search generations and readiness records, by command and over whole logs, and that builds and drops can be completed |

Source code that updates objects step by step is modelled by classes and loops, each tied by its `ensures` to
a function or predicate about which the lemmas are proved. Protocols with several actors are step machines
whose invariant is proved for every step and then for every sequence of steps.

## How to read the model

- **Bytes, integers, identities.** Integer widths appear where they matter: sequences, generations, counts and
  length prefixes are bounded, and the 32-bit length prefix truncates as the source does. Log indices and node
  ids are naturals; `Indexed64` and `Keyspace.Encodable` say where 64 bits are needed. An endpoint is an identity with a
  byte length, because endpoints are only compared and measured.
- **Digests.** The 128-bit operation digest and the SHA-256 topology digest are taken to be injective: they are
  modelled by the values they cover. The snapshot checksum is an arbitrary function with 32-byte results.
- **Storage supplies** the bound cluster identity and the recovery epoch; they are the `Env` parameter. Clocks,
  encoded lengths and storage failures are parameters or step choices.
- **Search definitions** are reduced to whether they validate, their hash and their encoded size.
- **Refusals.** `InvalidConfig` carries no message text.
- **Data-group changes** in the move protocol: a voter change left behind by a stopped driver either finishes or
  is lost before the next quorum-confirmed read returns. Reports to the meta group have no such bound: they may
  commit at any later time, any number of times. One driver acts on a group at a time.
- **Client streams** are per partition: the `Client` class keeps them in maps and every method leaves other partitions'
  streams alone, so `ExactlyOnce` composes one partition with all its clients. Client identities are not shared.
- **Timeouts** are whole milliseconds.

Where code and comments disagree the model follows the code. `src/runtime/rebalance.rs:367` counts Suspect voters
among those drained; `src/placement.rs:50` drains only Down, Draining and unlisted ones. The sequence-exhausted
refusal in `src/partition/state_machine.rs:343` would need a sequence larger than a recorded highest one that is
already the largest 64-bit value; the model keeps the branch, which no input reaches.

The rule that an unheard node gets a full grace period from the evaluation that first misses it
(`src/meta/failure.rs:184-187`) does not hold without exception, because an expired maintenance grace already counts
as silence (`src/meta/failure.rs:242-250`). `Detector.GraceCountsAsSilence` gives such a history: one maintenance
suspension, no heartbeat, and a very first evaluation that proposes Down. `Detector.DownExactly` gives the exact
condition the code implements and `Detector.AllowanceExactly` says on exactly which histories the plain rule holds
from a given time on.

A maintenance operation can be completed from every stage except for one family of reports. A participant's report is
replaced only by one of a later process: the recorded process reporting again is a no-op whatever policy it names, and
an earlier one is refused (`src/meta/state_machine.rs:619-630`), while a release needs one policy of all
(`src/meta/state_machine.rs:414-473`). Who has reported process 2^64 - 1 is therefore bound to the policy it named.
`MaintenanceCompletion.CompletableExactly` says that an active operation can be completed under a policy exactly if nobody
is bound to another one, and `MaintenanceCompletion.ReleasableExactly` that a verification can be released at all exactly
if no two participants are bound to different policies. `MaintenanceWedge.NewClustersCanWedge` gives the failing inputs:
for every init file, logs that seed the cluster, begin its first operation and take it to verification, and leave it so
that no continuation changes anything any more.

Keys decode to what they encode only up to trailing bytes: `decode_search_consumer_key` never looks past the generation
(`src/keyspace.rs:281-305`). `Keyspace.ConsumerKeyRoundTrip` shows an encoded key with anything appended decoding like
the key itself, and `Keyspace.ConsumerKeyCanonical` says exactly which accepted keys are encodings.

## Model

| member | source | states |
|---|---|---|
| `DataStateMachine.EvaluateDependsOnReads` | src/partition/state_machine.rs:279-374 | a decision depends only on the records read, not on whether they come from storage or an overlay |
| `DataStateMachine.StageTracksWrites` | src/partition/state_machine.rs:65-79 | staging mutations is writing them: the overlaid view follows every staged mutation |
| `DataStateMachine.DrainWritesLayer` | src/partition/state_machine.rs:81-91 | the collapsed batch writes exactly the overlaid view, in whatever order the map is drained |
| `DataStateMachine.OverlayReadsItsLayer` | src/partition/state_machine.rs:93-100 | reading through the overlay equals reading the store it stands for |
| `DataStateMachine.StateOverlay.Stage` | src/partition/state_machine.rs:65-79 | the loop leaves the last write per key |
| `DataStateMachine.StateOverlay.IntoMutations` | src/partition/state_machine.rs:81-91 | exactly one mutation per touched key, with its last value |
| `Applier.PerEntryConcat` | src/partition/sm.rs:252-315 | applying a list is applying a prefix and then the rest |
| `Applier.MarksAreTheLogs` | src/partition/sm.rs:252-315 | the recorded last log id is the last entry's, and the recorded membership that of the last membership entry with its log id |
| `Applier.ChunkFoldIsPerEntry` | src/partition/sm.rs:174-248 | deciding inside a chunk against the overlay equals deciding entry by entry against the store |
| `Applier.CoalescingRefinesPerEntry` | src/partition/sm.rs:137-248 | every chunking of every entry list yields the results, state, last log id and membership of the per-entry path |
| `Applier.CrashAndRedeliver` | src/partition/sm.rs:137-248 | a crash after any chunk leaves the per-entry store of a prefix; redelivery under any other chunking completes the same results and store |
| `Applier.RocksStateMachine.ApplyCoalescedChunk` | src/partition/sm.rs:174-248 | one chunk equals the per-entry path and makes durable exactly one store |
| `Applier.RocksStateMachine.ApplyCoalesced` | src/partition/sm.rs:137-172 | the chunks keep both bounds unless of a single entry, none could have taken the entry after it, they equal the per-entry path, and every durable store on the way is that of some prefix |
| `Applier.RocksStateMachine.ApplyPerEntry` | src/partition/sm.rs:252-315 | the baseline path, one durable store per entry |
| `CasHistory.StoredRecordIsLastApplied` | src/partition/state_machine.rs:377-433 | at every point of every log the stored record is the one the last Applied mutation on that key left |
| `CasHistory.LastApplied` | src/partition/state_machine.rs:377-433 | finds the last Applied position on a key and nothing later |
| `CasHistory.AppliedVersionsIncrease` | src/partition/state_machine.rs:279-433 | fresh Applied versions are the committing indices and strictly increase |
| `CasHistory.NumericCasHasNoAba` | src/partition/state_machine.rs:279-433 | a fresh numeric compare-and-set on v is Applied if and only if the put at index v wrote the key and nothing Applied touched it since |
| `CasHistory.CreateOnlyMeansAbsent` | src/partition/state_machine.rs:377-433 | a fresh create-only put is Applied if and only if the last Applied mutation on the key, if any, was a delete |
| `CasHistory.UnconditionalApplies` | src/partition/state_machine.rs:377-433 | over every log a decided mutation without a condition is Applied at its own index |
| `CasHistory.FailureTellsTheVersion` | src/partition/state_machine.rs:377-433 | over every log a failed condition reports the index of the put the key was last written by, or its absence |
| `SequenceHistory.RecordIsLastDecided` | src/partition/state_machine.rs:341-374 | at every point of every log a client's record holds the sequence, operation and result of its last decided request |
| `SequenceHistory.GateExactly` | src/partition/state_machine.rs:279-374 | over every log: the next sequence is decided, a repeat of the last decided request gets its recorded result, and every other request is refused with the reason and the numbers that follow from that request |
| `ClientStream.Client.ReserveSequence` | src/api/client.rs:586-589 | returns the partition's cursor, starting at one, and touches no other partition |
| `ClientStream.ChoiceExactly` | src/api/client.rs:602-627 | the pending sequence if and only if the same operation is pending, unresolved if and only if another one is, and with nothing pending the cursor or, past the last sequence, exhaustion |
| `ClientStream.Client.NextMutationSequence` | src/api/client.rs:602-627 | makes the choice `ChoiceExactly` characterises and reserves the cursor, on this partition alone |
| `ClientStream.Client.CommitSequence` | src/api/client.rs:629-641 | moves the cursor past a decided sequence, never back, and marks the space exhausted at the last value |
| `ClientStream.Client.StartMutation` | src/api/client.rs:485-520 | records the pending mutation before anything is sent |
| `ClientStream.Client.FinishMutation` | src/api/client.rs:520-562 | releases the sequence only on a decision or a definite refusal, keeps it on every ambiguous outcome, an epoch mismatch among them |
| `ExactlyOnce.ReplyIsTheDecision` | src/api/client.rs:520-562 | in every reachable state a reply carries the recorded decision of the pending call |
| `ExactlyOnce.NextKeepsInv` | src/api/client.rs:485-562 | every step of clients, network and log keeps streams, records, log and answers aligned |
| `ExactlyOnce.ExactlyOnceEndToEnd` | src/partition/state_machine.rs:279-374 | after any run every answered call has one and only one deciding log position, with the answered result; every other decision is still pending at its client; no gap, mismatch, stale or exhausted reply ever reaches a caller |
| `ExactlyOnce.StreamNeverWedges` | src/api/client.rs:485-641 | after every run a client that retries its pending operation, or invokes any operation if nothing is pending, can be answered as long as a sequence is left: steps exist that decide a well-formed operation and move the stream on, or refuse a malformed one and release its sequence |
| `ExactlyOnce.SentExactly` | src/api/client.rs:485-520 | a request is sent if and only if it fits and retries the pending mutation at its sequence, or nothing is pending and the cursor is a sequence; otherwise cursor and pending mutation stay |
| `ExactlyOnce.OthersWaitTheirTurn` | src/api/client.rs:604-612 | after every run another operation than the pending one is kept back with the stream unchanged, and can be answered once the pending one has been |
| `Keyspace.MetaKeysAreDistinct` | src/keyspace.rs:88-175 | all meta record families have disjoint, injective keys |
| `Keyspace.ReadyScanIsExact` | src/keyspace.rs:144-169 | a prefix scan selects a readiness key if and only if its name and generation are the ones asked for |
| `Keyspace.StoreKeysAreDistinct` | src/keyspace.rs:37-169 | two records of a state column family share a key only if they are the same record: user, sequence, epoch, both applied markers and every meta record |
| `Keyspace.ConsumerKeyRoundTrip` | src/keyspace.rs:266-305 | decoding an encoded consumer key returns its name and generation, and so does decoding it with anything appended |
| `Keyspace.ConsumerKeyInjective` | src/keyspace.rs:244-278 | consumer keys are equal exactly for equal group, name and generation |
| `Keyspace.ConsumerKeyCanonical` | src/keyspace.rs:281-305 | every accepted key begins with the encoding of what it decodes to, and equals it exactly when the name length the key announces reaches its end |
| `Snapshot.DecodeInvertsEncode` | src/snapshot.rs:118-171 | decoding any encoded list of legal records returns that list |
| `Snapshot.EncodeInvertsDecode` | src/snapshot.rs:118-171 | any byte string the decoder accepts is the encoding of the records it produced |
| `Snapshot.EncodingIsInjective` | src/snapshot.rs:225-254 | two record lists never share a stream |
| `Snapshot.EncodeRecords` | src/snapshot.rs:225-254 | the streaming encoder fails exactly on illegal records and otherwise writes the format |
| `Snapshot.DecodeRecords` | src/snapshot.rs:118-171 | the streaming decoder computes the decoding, refusing bad magic, framing, lengths, count, checksum and trailing bytes |
| `Snapshot.DecodeBody` | src/snapshot.rs:130-155 | the record loop parses exactly up to the end mark, hashing and counting what it parsed |
| `Snapshot.ReadRecord` | src/snapshot.rs:131-147 | one turn of the loop against the parse of what is left |
| `MetaStateMachine.OnlyAppliedWrites` | src/meta/state_machine.rs:154-320 | a command that is not Applied leaves the replicated state as it was |
| `MetaStateMachine.MetaStore.Apply` | src/meta/state_machine.rs:154-164 | the store holds the evaluated outcome and the log id that caused it, committed as one write, and stays the result of applying its whole log to the empty state |
| `MetaStateMachine.ApplyLogSnoc` | src/meta/state_machine.rs:154-164 | a log is applied command by command |
| `Retries.RetriesAreHarmless` | src/meta/state_machine.rs:39-46 | in every reachable state a command that took effect is, committed again, a no-op, or for plans and their resolutions a refusal, and changes nothing |
| `MetaDecisions.GenesisExactly` | src/meta/state_machine.rs:694-763 | genesis is applied exactly on an unclaimed, bound store with a supported shape and an odd set of 3 to 8 distinct voters, and is a no-op exactly when already so |
| `MetaDecisions.RetirementExactly` | src/meta/state_machine.rs:905-957 | a node retires exactly when draining at the quoted incarnation with no group, meta included, referencing it; a repeat is a no-op |
| `MetaDecisions.SeedExactly` | src/meta/state_machine.rs:959-1009 | a placement is seeded exactly for a new in-range partition with R distinct Active voters |
| `MetaDecisions.PlanExactly` | src/meta/state_machine.rs:1011-1080 | a plan is created exactly for an idle group and a legal single-voter target that adds only Active nodes and can be filled |
| `MetaDecisions.BeginExactly` | src/meta/state_machine.rs:322-412 | an operation opens exactly over all Active nodes of a cluster at rest, as the next generation |
| `MetaDecisions.ReleaseExactly` | src/meta/state_machine.rs:414-473 | an operation is abandoned while preparing or released after full verification, and in no other way |
| `MetaDecisions.ScanExactly` | src/meta/state_machine.rs:630-645 | the topology scan succeeds exactly on settled placements and lists exactly the groups the node votes in |
| `MetaInvariants.RegisteredApart` | src/meta/state_machine.rs:765-865 | an applied registration shares no endpoint with another node, is not of a retired id and respects the node limit |
| `MetaInvariants.RegisteredEntry` | src/meta/state_machine.rs:765-865 | it writes exactly that node's entry, with valid endpoints and an incarnation of at least one |
| `MetaInvariants.RegistrationExactly` | src/meta/state_machine.rs:765-865 | a registration takes effect if and only if the node is new, has moved or comes back from Down, and the directory it leaves is in order |
| `MetaInvariants.EvaluateKeeps` | src/meta/state_machine.rs:166-320 | every command keeps the directory, placement, plan-id and cluster invariants |
| `MetaInvariants.ReachableInv` | src/meta/state_machine.rs:166-320 | they hold after every ordered log from the empty store |
| `Routing.ValidateDirectory` | src/api/ops.rs:209-233 | the loop accepts exactly the directories with distinct nonzero ids and distinct, well-sized endpoints |
| `Routing.ValidatePlacement` | src/api/ops.rs:241-262 | exactly the placements with known distinct voters and a legal one-for-one plan |
| `Routing.ValidatePlacements` | src/api/ops.rs:234-262 | exactly the in-range, distinct partitions with valid placements |
| `Routing.Validate` | src/api/ops.rs:192-263 | accepts exactly the valid snapshots of the expected cluster |
| `Routing.Candidates` | src/api/ops.rs:284-297 | the voters first, then the planned ones, each once, nothing for an unknown partition |
| `Routing.ReachableSnapshotsValidate` | src/meta/state_machine.rs:765-1171 | every routing snapshot of every reachable state passes validation |
| `Routing.RetiredIdsNeverReappear` | src/meta/state_machine.rs:905-957 | a retired id is in no directory, placement or plan of the same state |
| `Routing.EstimateCovers` | src/config.rs:207-232 | the admission-time estimate bounds the encoded size of any valid snapshot of that shape |
| `Routing.ReachableSnapshotsFit` | src/config.rs:207-232 | every reachable snapshot encodes to at most the estimate, and so to at most 4 MiB |
| `MaintenanceLifecycle.RecoverKeeps` | src/meta/state_machine.rs:571-692 | a recovery acknowledgement keeps lists sorted and keyed alike, and publishes a digest exactly when all agree on it |
| `MaintenanceLifecycle.InsertNode` | src/meta/state_machine.rs:504-507 | the binary-search insertion is the sorted insertion, once |
| `MaintenanceLifecycle.UpsertLookup` | src/meta/state_machine.rs:652-669 | the keyed upsert stores the new value for its node and keeps every other |
| `MaintenanceLifecycle.LegalAdvances` | src/meta/state_machine.rs:322-692 | every legal change moves (generation, stage) forward, the generation by at most one |
| `MaintenanceLifecycle.CommandStep` | src/meta/state_machine.rs:172-186 | any command keeps the record coherent and legal, and changes nothing else while an operation is active |
| `MaintenanceLifecycle.RunsForward` | src/meta/state_machine.rs:322-692 | over any run (generation, stage) never goes back, and a run inside one active generation changes only the record |
| `MaintenanceLifecycle.ReachableMaintenance` | src/meta/state_machine.rs:322-692 | every reachable record has sorted acknowledgement and recovery subsets with matching keys, and a digest and epoch exactly when every participant reported them |
| `MaintenanceLifecycle.VerifiedRelease` | src/meta/state_machine.rs:414-473 | a release after verification saw every participant recovered under the releasing policy and live at its recorded process and incarnation |
| `MaintenanceHistory.OperationIsItsHistory` | src/meta/state_machine.rs:322-692 | whatever was committed, an active operation was begun with exactly its participants; once Quiesced or Verifying, every participant acknowledged it between begin and quiesce at the incarnation under which it is still Active; while Verifying, everyone counted as recovered filed, after verification began, the recorded process and policy with exactly the topology it hosts |
| `MaintenanceHistory.ProcessesNeverGoBack` | src/meta/state_machine.rs:571-692 | over every run within one operation's verification a recorded report is kept, process and policy, or superseded by one of a later process |
| `MaintenanceHistory.ReleasedStays` | src/meta/state_machine.rs:322-473 | a released record stays as it is until the next generation begins |
| `MaintenanceHistory.ReleasedInFull` | src/meta/state_machine.rs:414-473 | over every run, a verification found released had every participant recovered and one policy published |
| `MaintenanceHistory.ReachableVouched` | src/meta/state_machine.rs:605-617 | after every log no participant is on record with the zero policy digest |
| `MaintenanceCompletion.ReachableAttended` | src/meta/state_machine.rs:322-412 | while an operation is active all its participants are Active |
| `MaintenanceCompletion.OperationsCanComplete` | src/meta/state_machine.rs:322-692 | every reachable active operation, of any stage, with nobody bound to another policy has a continuation that acknowledges, quiesces, verifies and releases it under that policy, changing nothing else |
| `MaintenanceCompletion.CompletableExactly` | src/meta/state_machine.rs:619-630 | a reachable active operation has a continuation that completes it under a policy if and only if the policy is not zero and no participant is on record with process 2^64 - 1 and another policy |
| `MaintenanceCompletion.ReleasableExactly` | src/meta/state_machine.rs:619-630 | a reachable operation under verification has a continuation that releases it if and only if no two participants are on record with process 2^64 - 1 and different policies |
| `MaintenanceWedge.WedgedForever` | src/meta/state_machine.rs:414-692 | with process 2^64 - 1 of every participant and two policies on record, no log changes anything of the meta state |
| `MaintenanceWedge.OperationsCanWedge` | src/meta/state_machine.rs:322-692 | every reachable preparing or quiesced operation over two participants or more has a continuation that ends in such a state |
| `MaintenanceWedge.NewClustersCanWedge` | src/meta/state_machine.rs:619-630 | every log of interleaved seeding runs that seeds a cluster from an init file has a continuation that begins its first operation and ends in such a state |
| `Admission.SameFenceProgress` | src/runtime/maintenance.rs:110-121 | equal fences agree on generation, stage and admission |
| `Admission.AcceptAdvances` | src/runtime/maintenance.rs:123-151 | an accepted transition never goes back in (generation, stage) |
| `Admission.TransitionExactly` | src/runtime/maintenance.rs:123-151 | a view is accepted if and only if nothing is installed, it is of a later generation, or of the same operation at no earlier a stage; it is stale if and only if it is of an earlier generation or stage |
| `Admission.GateStep` | src/runtime/maintenance.rs:47-102 | every atomic step keeps: open or outstanding permits imply an unfenced record, and the durable fence is never behind memory, across failed writes, cancellation and restart |
| `Admission.MaintenanceAdmission.constructor` | src/runtime/maintenance.rs:33-41 | starts closed on the durable fence |
| `Admission.MaintenanceAdmission.Admit` | src/runtime/maintenance.rs:49-52 | grants a permit exactly when open |
| `Admission.MaintenanceAdmission.Reconcile` | src/runtime/maintenance.rs:59-102 | Ok if and only if the fence is installed already, or may follow, no permit is out and the write succeeds; pending if and only if permits are out; the fence, its durable copy and the flag after every outcome; and the outcome is a sequence of the atomic steps |
| `Drain.AcksComeFromCommands` | src/meta/state_machine.rs:475-512 | a recorded acknowledgement was there before or is this command's |
| `Drain.StaysCovered` | src/meta/state_machine.rs:344-369 | while an operation is active every voter of every group is a participant |
| `Drain.StepKeeps` | src/runtime/maintenance.rs:47-102 | every step of gates and meta group keeps the drain invariant |
| `Drain.ClusterWideDrain` | src/meta/state_machine.rs:475-538 | while the committed stage is Quiesced or Verifying no participant, hence no data voter, is open or holds a write permit, under every interleaving |
| `Drain.DrainedNode` | src/partition/node.rs:581-588 | such a node has also made the fence of this generation durable |
| `GateProgress.NodeCatchesUp` | src/runtime/maintenance.rs:59-102 | in every reachable state a node has steps that install what is committed, with the flag saying whether it lets clients in and nobody inside, and acknowledge a prepared operation |
| `GateProgress.ClusterCatchesUp` | src/runtime/maintenance.rs:59-102 | from every run all nodes can do so one after the other, after which every gate is open if nothing or a released operation is committed |
| `Reconcile.PhasesRecognised` | src/meta/reconcile.rs:34-91 | for a legal plan each phase is recognised as itself and everything else is an error; the gate accepts exactly a healthy plan at its start |
| `MoveProtocol.PlacementEffect` | src/meta/state_machine.rs:1011-1171 | what one command can do to a data placement: nothing, a new plan, an abort mark, or a resolution by a matching report |
| `MoveProtocol.StepKeeps` | src/meta/rebalancer.rs:86-285 | every step of driver, data group and meta group keeps the protocol invariant |
| `MoveProtocol.MovesAreCrashSafe` | src/meta/rebalancer.rs:86-285 | whatever stops, aborts or arrives late, the committed voters are a phase of the recorded plan, the recorded voters without one, and reconciliation never errors |
| `MoveProtocol.LateReportsAreHarmless` | src/meta/state_machine.rs:1110-1171 | a late report changes nothing, or resolves its own plan with meta voters equal to the committed set |
| `MoveProtocol.StaleReport` | src/meta/state_machine.rs:1110-1171 | a report naming another plan changes nothing |
| `MoveDriver.ReportResolves` | src/meta/state_machine.rs:1110-1171 | a report is applied exactly when it names the recorded plan, fits its abort flag and observes a legal end |
| `MoveDriver.DataGroup.ChangeVoters` | src/meta/rebalancer.rs:119-120 | joint consensus ends on the target, whose members are no longer learners, unless it was refused or stopped at the joint configuration; how many configuration entries each outcome commits |
| `MoveDriver.FinalizeMove` | src/meta/rebalancer.rs:131-161 | succeeds exactly when the target is committed and the report is acceptable |
| `MoveDriver.ExecuteMove` | src/meta/rebalancer.rs:86-125 | changes the data group exactly when the gate accepts, as far as the voter change gets, and resolves the plan exactly when the change completed and the plan is the one named |
| `MoveDriver.ExecuteAbort` | src/meta/rebalancer.rs:220-285 | never changes voters, resolves an aborting plan to whichever end is committed, removes the learner on rollback, refuses while joint |
| `MoveDriver.ResumeMove` | src/meta/rebalancer.rs:168-213 | from every phase one pass clears the plan with meta voters equal to the committed set and the log id of their configuration; it fails exactly if the voter change it needs fails, and then leaves a state the next pass accepts |
| `MoveDriver.CrashedMovesAreResumable` | src/meta/rebalancer.rs:168-213 | every state a run of the protocol can leave satisfies what `ResumeMove` asks |
| `MoveDriver.ReachableMovesAreResumable` | src/meta/rebalancer.rs:168-213 | in particular from any committed meta log, with no assumption about the meta state left |
| `MoveProgress.MovesNeverWedge` | src/meta/rebalancer.rs:168-213 | from every run of the protocol steps exist that resolve a recorded plan: rolled back if it is aborting and its change had not begun, else completed, with recorded and committed voters equal |
| `PlanHistory.MaintenanceMeansNoPlan` | src/meta/state_machine.rs:344-369 | an active operation excludes plans, so no command about a plan is refused by the maintenance gate |
| `PlanHistory.PlanIsItsHistory` | src/meta/state_machine.rs:1011-1108 | after every ordered log a recorded plan bears the index and target of the entry that planned it, and is aborting exactly if a mark quoting that index was committed since |
| `Balancer.LoadMap` | src/placement.rs:68-82 | the loop counts anticipated replicas: targets of healthy moves, voters otherwise |
| `Balancer.LeastLoaded` | src/placement.rs:169-179 | the least loaded node, the lowest id on a tie |
| `Balancer.MostLoaded` | src/placement.rs:139-143 | the most loaded voter, the lowest id on a tie |
| `Balancer.ReplacementCounts` | src/placement.rs:197-205 | the replacement drops one voter, adds one, keeps the rest, and is sorted |
| `Balancer.EvacuatesExactly` | src/placement.rs:41-62 | a voter is evacuated if and only if no directory entry speaks for it as Active or Suspect |
| `Balancer.FindDrain` | src/placement.rs:112-130 | finds the first partition with room and a voter not listed as Active or Suspect, its lowest such voter and the least loaded destination, or shows there is none |
| `Balancer.FindRebalance` | src/placement.rs:134-158 | finds the best of all candidates under the deterministic tie-break, or shows there is none |
| `Balancer.Propose` | src/placement.rs:86-165 | computes the specified proposal |
| `Balancer.Deterministic` | src/placement.rs:86-165 | the specification admits one result only |
| `Balancer.GapGivesCandidate` | src/placement.rs:134-158 | two Active nodes two slots apart always leave a rebalancing candidate (pigeonhole) |
| `Balancer.Fixpoint` | src/placement.rs:86-165 | with no moves, r Active nodes and r distinct voters each, nothing is proposed if and only if every voter is listed as Active or Suspect and Active loads differ by at most one |
| `Convergence.ProposalDecreases` | src/placement.rs:109-164 | every proposal strictly lowers (evacuating slots, sum of squared anticipated loads) |
| `Convergence.FinalizeKeepsMeasure` | src/placement.rs:68-82 | finalizing a healthy move leaves both components unchanged |
| `Convergence.ProposalIsAccepted` | src/meta/state_machine.rs:1011-1080 | every proposal computed from a reachable state is a legal plan on that state |
| `Convergence.CommitMove` | src/meta/state_machine.rs:1011-1171 | committing a legal plan and then the report of its target moves exactly that group to the target |
| `Convergence.Perform` | src/runtime/rebalance.rs:355-385 | one round through the meta log strictly lowers the measure and leaves no move |
| `Convergence.Settle` | src/runtime/rebalance.rs:355-385 | through the meta log itself, proposing, committing and finalizing in turn ends, with every voter of every partition Active or Suspect, Active loads that differ by at most one, and nothing but data placements changed |
| `Decommission.TakeOut` | src/meta/rebalancer.rs:310-345 | from every calm reachable state a node the meta group does without, with enough others Active, can be drained, evacuated and retired; no partition votes on it and nothing else of the directory has changed |
| `Failure.HeartbeatTracker.constructor` | src/meta/failure.rs:90-93 | tracks nothing |
| `Failure.HeartbeatTracker.RetainKnown` | src/meta/failure.rs:106-115 | forgets exactly the unlisted nodes |
| `Failure.HeartbeatTracker.Observe` | src/meta/failure.rs:130-162 | accepts a heartbeat if and only if it comes after every one accepted since the node was last forgotten, and within the bound; it keeps every slot the summary of its node's whole history of calls, and never tracks more than the node limit |
| `Failure.FreshExactly` | src/meta/failure.rs:138-148 | over every history the tracker's test is that order by incarnation, process and sequence |
| `Failure.HeartbeatTracker.SuspendTimeouts` | src/meta/failure.rs:98-104 | the same, with every listed node granted a grace at its incarnation and the rest forgotten |
| `Failure.HeartbeatTracker.SilenceMs` | src/meta/failure.rs:188-214 | the silence since a matching heartbeat or the start of its grace, starting one if there is none |
| `Failure.HeartbeatTracker.CheckGrace` | src/meta/failure.rs:235-251 | a running grace suspends the decision, an expired one becomes the silence of an unheard node |
| `Failure.HeartbeatTracker.EvaluateOne` | src/meta/failure.rs:233-265 | one entry's transition and slot, every other slot unchanged |
| `Failure.HeartbeatTracker.Evaluate` | src/meta/failure.rs:219-267 | the same, proposing in listing order what each node's own history decides |
| `Failure.HeartbeatTracker.Walk` | src/meta/failure.rs:219-267 | the loop: every slot and proposal follows from that node's entries alone |
| `Failure.EmittedExactly` | src/meta/failure.rs:219-267 | with one entry per node, exactly the transitions each node's own evidence justifies are proposed |
| `Failure.SlotVerdict` | src/meta/failure.rs:219-267 | and each listed node's slot moves by its own verdict |
| `Detector.SlotSummarises` | src/meta/failure.rs:98-266 | the tracker's maps are an exact summary of the node's history at the committed incarnation |
| `Detector.DownExactly` | src/meta/failure.rs:219-266 | Down is proposed exactly after a full down-timeout since the last heartbeat and suspension, or since an earlier first evaluation when there was neither |
| `Detector.SuspectExactly` | src/meta/failure.rs:219-266 | Suspect is proposed if and only if the node is Active, has been quiet for the suspect-timeout, has not timed out and is in no grace |
| `Detector.ReactivationExactly` | src/meta/failure.rs:253-263 | Suspect returns to Active exactly on an accepted heartbeat younger than the timeouts, outside a maintenance grace |
| `Detector.OnlyLiveNodesMove` | src/meta/failure.rs:43-57 | evidence never moves a Down or Draining node |
| `Detector.GraceCountsAsSilence` | src/meta/failure.rs:235-251 | a history whose first evaluation already proposes Down |
| `Detector.AllowanceExactly` | src/meta/failure.rs:219-266 | the plain grace rule holds from a given time on if and only if the node was heard, not suspended, or evaluated before its suspension or long enough ago |
| `Detector.ProposesDownExactly` | src/meta/failure.rs:98-267 | after any sequence of tracker calls, evaluating a directory proposes Down for a node exactly if it is listed as Active or Suspect and its own history has timed out |
| `Detector.ProposesSuspectExactly` | src/meta/failure.rs:98-267 | the same for Suspect |
| `Detector.ProposesActiveExactly` | src/meta/failure.rs:98-267 | and for the return to Active |
| `NodeLifecycle.CommandStep` | src/meta/state_machine.rs:765-957 | one command's effect on a registered node: later, or retired; only RegisterNode raises an incarnation, by one, to Active |
| `NodeLifecycle.StateExactly` | src/meta/state_machine.rs:867-903 | a state is set if and only if the incarnation is current and the state another one that is no less declined: live, then Down, then Draining |
| `NodeLifecycle.NoRevival` | src/meta/state_machine.rs:823-903 | over every run the incarnation never falls, and at one incarnation endpoints are fixed and the state only declines |
| `NodeLifecycle.LiveAgainMeansRejoined` | src/meta/state_machine.rs:823-903 | a node live again after Down or Draining was re-registered in between, at a strictly higher incarnation |
| `NodeLifecycle.RetiredForGood` | src/meta/state_machine.rs:905-957 | a retired id stays retired under the incarnation it had and never enters the directory again |
| `NodeLifecycle.OldVerdictsAreDead` | src/meta/state_machine.rs:867-903 | a state change quoting an incarnation left behind has no effect, however late it commits |
| `NodeLifecycle.RejoinLands` | src/meta/state_machine.rs:765-865 | in every reachable state a Down node that registers again from its own endpoints is Active at its next incarnation, and nothing else changes |
| `NodeLifecycle.VerdictsLand` | src/meta/failure.rs:43-57 | every transition the detector proposes for a committed state is one the state machine performs, on that node alone |
| `DirectoryHistory.CommandLeaves` | src/meta/state_machine.rs:765-957 | an effective command leaves its node the record it should and every other node the record it had; any other command leaves all records |
| `DirectoryHistory.DirectoryIsItsHistory` | src/meta/state_machine.rs:765-957 | after every ordered log a node's incarnation counts its effective registrations, its endpoints are those of the last one, its state is Active until a verdict quoting that incarnation changed it, and a tombstone holds the incarnation retired |
| `Bootstrap.CommandStep` | src/meta/bootstrap.rs:147-221 | against the state after the first m commands, command j is a no-op if applied and otherwise leads to the state after m + 1 |
| `Bootstrap.SeededDetermines` | src/meta/state_machine.rs:694-763 | the number of applied commands determines the state up to log ids |
| `Bootstrap.RunsAreSeeded` | src/meta/bootstrap.rs:147-221 | any interleaving is in the state of its furthest command |
| `Bootstrap.NeverRejected` | src/meta/bootstrap.rs:147-221 | no interleaving of partial, repeated, in-order runs is ever refused |
| `Bootstrap.Confluence` | src/meta/bootstrap.rs:147-221 | once one run of each has completed, any two interleavings agree up to `voters_log_id` |
| `Bootstrap.SeedCluster` | src/meta/bootstrap.rs:147-185 | one run of a valid descriptor completes genesis from whatever an earlier run left |
| `Genesis.VotersAreDistinct` | src/runtime/config_file.rs:679-689 | every partition gets r distinct voters of the node list |
| `Genesis.LoadBounds` | src/runtime/config_file.rs:679-689 | every node's load lies between r*floor(p/n) and r*ceil(p/n) |
| `Genesis.LoadsAddUp` | src/runtime/config_file.rs:679-689 | the loads add up to p*r |
| `Genesis.LoadedDescriptorIsValid` | src/runtime/config_file.rs:607-675 | what the init file's checks admit is a descriptor every seeding run accepts |
| `Genesis.InitExactly` | src/runtime/config_file.rs:607-675 | the init file's checks pass if and only if its descriptor is one seeding accepts and its meta voters are distinct and among its nodes |
| `Genesis.SeededIsAtRest` | src/runtime/config_file.rs:607-689 | a cluster fully seeded from it has every group settled on the Active nodes, which are those of the file, so that maintenance may begin |
| `SearchReadiness.CommandStep` | src/meta/state_machine.rs:1182-1477 | every command keeps stored index records valid and readiness tied to the current building generation |
| `SearchReadiness.ReadinessIsNeverOrphaned` | src/meta/state_machine.rs:1269-1323 | in every reachable state a readiness record is for its index's current building generation and is found by exactly that generation's scan |
| `SearchReadiness.GenerationsAreConserved` | src/meta/state_machine.rs:1182-1477 | whatever is committed, a generation an index holds stays accounted for until its own drop is finalized, and one it newly holds was created for it by this very entry |
| `SearchReadiness.CommandMoves` | src/meta/state_machine.rs:1182-1477 | any command starts a build, ends one with its readiness, forgets one retiring generation, records a timely report that is not behind, or leaves catalog and readiness alone |
| `SearchHistory.GenerationsAreCreated` | src/meta/state_machine.rs:1182-1267 | in every reachable state each generation an index accounts for was created for that index by the entry whose log position it bears |
| `SearchHistory.GenerationsAreKept` | src/meta/state_machine.rs:1325-1477 | over every run without the matching finalized drop, a held generation stays held |
| `SearchHistory.NewGenerationsAreNew` | src/meta/state_machine.rs:1182-1267 | a new generation's id was never held before by any index |
| `SearchHistory.ReadinessWasReported` | src/meta/state_machine.rs:1269-1323 | every readiness record is a committed report of a node that was then a voter, under the voter configuration and the build current at that time |
| `SearchHistory.ReadinessIsLatest` | src/meta/state_machine.rs:1269-1323 | of all effective reports of one voter about one build the record is one that none is newer than, for as long as the build lasts |
| `SearchReadiness.AllReadyExactly` | src/meta/state_machine.rs:1355-1385 | the scan-based readiness test holds exactly when every voter of every partition has its own record at the current voter log id |
| `SearchReadiness.ActivationExactly` | src/meta/state_machine.rs:1325-1401 | a generation is activated if and only if it is the one being built, all of them are on record with no move in flight, and the generation in service fits among the retiring ones; activation clears exactly that index's records |
| `SearchReadiness.CreateExactly` | src/meta/state_machine.rs:1182-1267 | a build starts if and only if none is under way, there is room, and the record it leaves validates |
| `SearchReadiness.ReportExactly` | src/meta/state_machine.rs:1269-1323 | a report takes effect if and only if it is timely and neither recorded nor behind what is |
| `SearchReadiness.DropExactly` | src/meta/state_machine.rs:1403-1452 | an index is dropped if and only if it has a generation in service or under way and they fit among the retiring ones, which then hold them |
| `SearchReadiness.FinalizeExactly` | src/meta/state_machine.rs:1454-1477 | a drop is finalized if and only if the generation is retiring, and the index goes with the last of them |
| `SearchProgress.BuildsCanComplete` | src/meta/state_machine.rs:1269-1401 | whatever was committed, once no partition is moving a build has a continuation that puts it into service and retires its predecessor, changing nothing else |
| `SearchProgress.IndexesCanBeBuilt` | src/meta/state_machine.rs:1182-1401 | so have a valid new index and a valid new generation |
| `SearchProgress.IndexesCanBeDropped` | src/meta/state_machine.rs:1403-1477 | outside of maintenance every index has a continuation after which it and its readiness are gone and nothing else has changed |

## Left out

- Storage engine, write-ahead log and group commit: `apply_raft` is one atomic durable write.
- Raft elections, replication and ReadIndex: logs are committed sequences, confirmed reads return committed state.
- Transport, key exchange, authorization and the command line: none of it decides replicated state.
- Backup and restore: file handling around the same records.
- Moves of the meta group itself and concurrent drivers for one group: the modelled drivers serve data groups, one driver per group.
- MoveProtocol.MovesAreCrashSafe: assumes a voter change left in flight has finished or is lost before the next confirmed read returns, which Raft's barrier gives and this model takes as given.
- Learner catch-up, polling limits and retry counts in the drivers: a step either completes or the driver stops.
- Conflict errors of the admission gate on delayed empty views: they only close admission further, which is a liveness matter.
- Search execution, definition validation and coordinators: only their effect on the catalog records is modelled.
- Parsing of the init file: the descriptor its checks admit is characterised, not the parser.
- Snapshot files, chunked transfer and temporary paths: the stream format alone is modelled.
- Reads, stale reads and the routing cache of the client: they change no stream.
- `fresh_process_sequence` of the heartbeat tracker: a lookup used by the release proposal.
- Reasons given by refused meta commands: modelled branch by branch, but the results say whether a command takes effect, is a no-op or changes nothing, not which reason it names.
