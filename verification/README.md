# A verified model of the file backup service

The service copies every content-addressed object to a set of symmetric targets. An outbox
row may read `done` only when every target durably holds the object. This project models the
parts that carry that promise, and the parts that recover from its loss, in Dafny.

The digest and the compressor are parameters. Theorems that need more state it as a
hypothesis: `CollisionFree` for the digest, `CodecContract` for the codec (lossless, frame
magic of section 3.1.1 of RFC 8878, expansion within the zstd bound, read errors reported as
read errors).

## Layout

- `Content.dfy`: bytes, identities, codecs, the verifying reader.
- `Fanout.dfy`, `FanoutSafety.dfy`, `FanoutLiveness.dfy`, `FanoutTermination.dfy`: the concurrent
  fan-out as a step system, what holds in every interleaving, that a good source is stored and a
  bad one reported, and why it always returns.
- `Circuit.dfy`, `Ledger.dfy`, `Outbox.dfy`, `Leases.dfy`: the breaker, the ledger, the outbox,
  and claims as leases.
- `Pipeline.dfy`, `Consumer.dfy`: one backup of one object, and one worker's handling of a row.
- `Protocol.dfy`, `Progress.dfy`, `Outage.dfy`, `Recovery.dfy`: whole-system runs, the way of a row
  to done, single-target outages, and the way back to the plaintext.
- `Restore.dfy`, `Reconcile.dfy`: the hash-arbiter decode and the repair built on it.
- `Order.dfy`, `Keyset.dfy`, `Sampling.dfy`, `Coverage.dfy`: byte order, keyset sweeps, sampled
  sweeps, the two readings of under-replication.
- `Inventory.dfy`, `Manifests.dfy`: the manifest diff, manifest names, choosing the newest one.

## Main results

- In every run of any number of workers, with stale, panicking and crashed ones, a done row
  means that one plaintext with that hash is committed on every target, the ledger says so and
  records its length (`Protocol.DoneMeansBackedUp`), and any one target suffices to get it back
  (`Recovery.DoneIsRecoverable`).
- In every interleaving of the fan-out a sink sees EOF only after receiving exactly the bytes
  that hash to the key (`FanoutSafety.VerifyThenCommit`), and once the context has ended the
  fan-out returns within a number of its own steps linear in the targets, however the sinks hang
  (`FanoutTermination.FanoutReturns`).
- However a good source is cut into reads, it can be stored on every target
  (`FanoutLiveness.GoodSourceStores`); every other source is reported, in every run in which some
  target lives (`FanoutLiveness.SourceIsReported`). From any world a free worker can take a
  claimable row all the way to done (`Progress.ClaimableCanBeDone`).
- Over every call sequence the breaker refuses exactly within one cooldown of the latest
  reservation (`Circuit.RefusedExactly`), and threshold consecutive backups in which a target fails
  leave its circuit open (`Outage.FailingBackupsOpen`).
- A single-target outage charges fewer than `threshold` attempts in all, besides those cut off
  before their outcome reached the breaker, from any reachable breaker state; it dead-letters a
  fresh row only by cutting that row off often enough; both bounds are reached
  (`Outage.OutageChargesFewer`, `Outage.OutageDeadLettersNothing`, `Outage.ChargesReachTheBound`,
  `Outage.DeadLetterReached`).
- One undisturbed reconcile pass leaves under-replicated exactly the objects that no configured
  holder can supply (`Reconcile.Reconciler.Run`).
- Decoding without codec metadata restores every plaintext, whatever its bytes
  (`Restore.RoundTrip`), and any stored bytes are judged corrupt exactly when no reading of them
  is the object (`Restore.CorruptionIsDetected`).

## Where the code does not do what it says

- A comment at `internal/domain/restore.go:301-306` counts a temp-file write error among the
  retryable ones. Only source reads are tracked, so a destination that fails during the zstd
  pass and works during the raw retry turns a good object into a corruption verdict.
  `Restore.CorruptExactly` gives the exact condition, over all fetches and accidents.
- The sorted inventory fallback keeps duplicates, so a manifest whose every id is stored can
  still drift. `Inventory.RepeatedIdDrifts` is an instance, `Inventory.ProbeVerdictExact` the
  exact condition.
- The status guard of a settlement does not protect a claim. `Leases.StaleWorkerSettlesOthersClaim`
  is a run in which a stale worker settles another's claim; `Leases.ClaimsStayExclusive` and
  `Leases.ShorterTTLReapsLiveClaim` show that the validated inequality is what prevents it, up
  to one second of margin.
- An attempt cut off by its deadline before the stream verified stored nowhere and never reaches
  the breaker. It is charged if the failing target's circuit is closed, and also with that
  circuit open if any other pending target's is closed (`Outage.CutOffCharged`), so an open
  circuit does not end the charges (`Outage.OpenCircuitStillCharges`) and they have no limit:
  `Outage.ChargesReachTheBound` has a run for every number of such attempts, and
  `Outage.DeadLetterReached` one that dead-letters a row although the threshold is below
  maxAttempts. `Outage.OutageChargesFewer` and `Outage.LaterOnesDefer` count them separately.
- `internal/domain/backup.go:511-519` takes io.ErrClosedPipe for the death of every target. A source
  whose own read error is that one, with all targets healthy, is charged to the targets
  (`FanoutLiveness.ClosedPipeSourceBlamesTargets`); while some target lives no other goes unreported
  (`FanoutLiveness.SourceIsReported`).
- A manifest pointer to an unlisted but openable manifest that is newer than every listed one
  wins over a plain scan; `Manifests.OpenLatestManifest` states this as an if-and-only-if.
- Formatted manifest names parse back exactly for the years 0 to 9999
  (`Manifests.FormattedNamesParse`). The parser also accepts names the service never writes, those
  whose fraction has a comma or a sign (`Manifests.AcceptedElseOddFraction`), and no others
  (`Manifests.AcceptedNamesAreFormatted`).

## Model

| member | source | states |
|---|---|---|
| `Content.VerifyReader.Read` | internal/domain/hash.go:44-63 | every byte read enters the running hash; an end of stream is reported only if everything seen hashes to the key and fits the cap |
| `Content.Verdict` | internal/domain/hash.go:44-63 | what a read answers, both ways: an end of stream exactly when the source ended on verified bytes, a clean read exactly when it read cleanly within the cap, otherwise the source's own error or an integrity error |
| `Content.ValidateContentHash` | internal/fsutil/fsutil.go:42-52 | the loop accepts exactly 64 lowercase hexadecimal digits |
| `Content.ContentHashesAreDigests` | internal/fsutil/fsutil.go:42-52 | these are exactly the hexadecimal forms of 32-byte digests |
| `FanoutSafety.StepKeeps` | internal/domain/backup.go:659-757 | every step of dispatcher, pump, pipe, sink or context keeps the fan-out invariant |
| `FanoutSafety.RunKeeps` | internal/domain/backup.go:406-525 | every interleaving keeps it |
| `FanoutSafety.VerifyThenCommit` | internal/domain/backup.go:406-525 | in every reachable state a sink that saw EOF received exactly the bytes hashed, they hash to the key and fit the cap, and a full commit is their encoding |
| `FanoutSafety.BadSourceCommitsNothing` | internal/domain/backup.go:607-627 | a corrupt, truncated or over-cap source gives EOF to no sink, is committed in full by none and is reported stored by none |
| `FanoutSafety.StoredMeansCommitted` | internal/domain/backup.go:474-524 | a target reported stored has committed the encoding of the verified plaintext, and the verified size is its length |
| `FanoutSafety.BarrierNeverBlocks` | internal/domain/backup.go:659-707 | the done channel never exceeds its capacity, no pump blocks on its signal, and a chunk is handed only to a pump that finished its last one |
| `FanoutSafety.LiveTargetHasPrefix` | internal/domain/backup.go:689-707 | between writes a live target has received exactly the source prefix, whatever the other targets do |
| `FanoutSafety.LaneIsolated` | internal/domain/backup.go:418-452 | one target's steps run the same whatever state the others are in, and touch only its own lane |
| `FanoutSafety.HealthyTargetStores` | internal/domain/backup.go:418-472 | from any state after a verified copy a target whose reader is open can still finish on its own and be reported stored |
| `FanoutSafety.StallStep` | internal/domain/backup.go:709-750 | after the stall tick no step raises the remaining work and every own step lowers it |
| `FanoutSafety.StallProgress` | internal/domain/backup.go:709-750 | after the stall tick some own step is always enabled |
| `FanoutSafety.CollectTerminates` | internal/domain/backup.go:709-750 | so a collect ends within a bounded number of own steps, under any interleaving |
| `FanoutLiveness.GoodSourceStores` | internal/domain/backup.go:406-525 | for every job and every plaintext that hashes to the key and fits the cap, however the source cuts it into reads and whichever way it ends, some run has every target commit its encoding and be reported stored, with the true size and no error |
| `FanoutLiveness.SourceIsReported` | internal/domain/backup.go:495-524 | in every run that returns with a live context and a live target a size is reported exactly when the source ended on verified bytes, and any other ending is the error reported, unless it is io.ErrClosedPipe |
| `FanoutLiveness.BadSourceIsReported` | internal/domain/backup.go:607-627 | so a source that ends on an error or on other bytes than the object is reported |
| `FanoutLiveness.ClosedPipeSourceBlamesTargets` | internal/domain/backup.go:510-521 | for every job some run has a source fail with io.ErrClosedPipe, no target die, no error reported and every target read as failed |
| `FanoutLiveness.AbortIsReported` | internal/domain/backup.go:495-509 | the first end of the context is the error reported, before anything about the source, and a stream verified by then keeps its size |
| `FanoutTermination.StepLowers` | internal/domain/backup.go:406-525 | no step of any goroutine adds to what a fan-out has left to do, and every step of its own takes some of it |
| `FanoutTermination.SomethingMoves` | internal/domain/backup.go:438-472 | once the context has ended, a step of the fan-out's own is enabled in every state short of its return |
| `FanoutTermination.FanoutReturns` | internal/domain/backup.go:406-525 | a fan-out to n targets makes at most 16n + 14 steps of its own after its context ended, in any interleaving, and can make one until it has returned |
| `FanoutTermination.DroppedIsGivenUp` | internal/domain/backup.go:457-463 | in every reachable state a target whose reader is shut can be given up at once, even with a live context and a sink hung in its own backend |
| `Circuit.CircuitBreaker.constructor` | internal/domain/circuit.go:41-51 | a new breaker has a threshold of at least one, a window of twice that, the given cooldown, and no history |
| `Circuit.CircuitBreaker.Open` | internal/domain/circuit.go:59-73 | refuses exactly before the half-open time; the caller let through as a probe reserves the next cooldown |
| `Circuit.CircuitBreaker.Record` | internal/domain/circuit.go:79-102 | any success while open clears the target; otherwise the window slides and opens at threshold failures |
| `Circuit.CountFails` | internal/domain/circuit.go:92-101 | the counting loop counts the failures of the window |
| `Circuit.WindowAndOpenEntry` | internal/domain/circuit.go:41-102 | over every call sequence the kept window is the last 2*threshold outcomes since the last close, and a target is open if and only if that window holds at least threshold failures |
| `Circuit.TrippedAppend` | internal/domain/circuit.go:79-102 | a failure never untrips a history and a success never trips one |
| `Circuit.ProbesOneCooldownApart` | internal/domain/circuit.go:59-73 | with a monotone clock two probe admissions with no close between them are at least one cooldown apart |
| `Circuit.RefusedExactly` | internal/domain/circuit.go:59-102 | over every call sequence a target is refused exactly while it is down and one cooldown has not passed since its latest reservation, and is probed exactly from then on |
| `Circuit.HalfOpens` | internal/domain/circuit.go:59-102 | so whatever happened before, a caller one cooldown after the latest reservation is let through, and its success closes the circuit |
| `LedgerStore.LedgerRepo.RecordBackup` | internal/adapter/outbound/db/queries/ledger.sql.go:118-136 | one atomic upsert: every listed target merged, every other row untouched, nothing written on an error or a repeated target |
| `LedgerStore.LedgerRepo.StoredTargets` | internal/adapter/outbound/db/queries/ledger.sql.go:71-74 | exactly the targets whose status for the object is stored |
| `LedgerStore.RecordKeepsStored` | internal/adapter/outbound/db/queries/ledger.sql.go:118-136 | a write keeps every stored status and adds exactly its own stored rows |
| `LedgerStore.StoredNeverRegresses` | internal/adapter/outbound/db/queries/ledger.sql.go:118-136 | over every sequence of writes stored never regresses |
| `LedgerStore.SizesStayTrue` | internal/domain/backup.go:223-240 | over every sequence of pipeline writes an object with a stored target has the length of its plaintext, despite later all-fail retries |
| `LedgerStore.LedgerIsItsHistory` | internal/adapter/outbound/db/queries/ledger.sql.go:118-136 | over every sequence of writes a status row has the bytes and the time of the latest write that stored it, or is failed, and an object row has its latest verified size or else the first one told |
| `OutboxStore.OutboxRepo.ClaimRows` | internal/adapter/outbound/db/outbox.go:41-65 | claims distinct, unlocked, claimable rows, at most n, and leaves a claimable row only for n rows none of which comes after it; a claimed row is in progress since now with its other columns kept, and no other row moves |
| `OutboxStore.OutboxRepo.SettleRowById` | internal/adapter/outbound/db/outbox.go:69-128 | the columns of the settled row for each statement, nothing at all unless it was in progress, no other row moved, and exactly a move to dead_letter reported |
| `OutboxStore.SettleColumns` | internal/adapter/outbound/db/outbox.go:69-128 | what each settlement writes, column by column: status, attempts, claim time, and the time from which the row is visible |
| `OutboxStore.BackoffTable` | internal/adapter/outbound/db/outbox.go:107-128 | the clamped exponential waits are 5, 10, 20, 40, 80, 160, 320 and then 600 seconds |
| `OutboxStore.ClaimableAgain` | internal/adapter/outbound/db/outbox.go:69-128 | when a settled row can be claimed again, for each settlement, both ways |
| `OutboxStore.OutboxRepo.ReapStale` | internal/adapter/outbound/db/outbox.go:222-244 | a row that is not stale is untouched; a stale one loses its claim, counts one delivery more, and is pending again or dead_letter exactly at the limit, all other columns kept; the result counts the newly dead rows |
| `OutboxStore.StaleExactly` | internal/adapter/outbound/db/outbox.go:222-244 | a claim is stale exactly past its time to live, and one without a time at once |
| `OutboxStore.OutboxRepo.BacklogStats` | internal/adapter/outbound/db/outbox.go:160-190 | the depth of the backlog and the age of its oldest dated row |
| `OutboxStore.DeferredIffColumns` | internal/adapter/outbound/db/outbox.go:90-128 | in every run attempts 0 with visibleAt set means exactly that the latest Fail, Defer or Release was a Defer |
| `OutboxStore.BacklogExcludesExactlyDeferred` | internal/adapter/outbound/db/outbox.go:160-190 | the backlog is exactly the due pending rows that were not last deferred |
| `OutboxStore.ReapsAreDeliveries` | internal/adapter/outbound/db/outbox.go:222-244 | deliveries counts the reaps, and reaching the limit is dead_letter |
| `OutboxStore.ReapedAtMostMaxDeliveries` | internal/adapter/outbound/db/outbox.go:222-244 | no run reaps a row more than maxDeliveries times, however often it is deferred |
| `OutboxStore.BudgetSpent` | internal/adapter/outbound/db/outbox.go:107-128 | under Fail and reap only, each settlement spends exactly one unit of the attempts-plus-deliveries budget |
| `OutboxStore.DeadLetteredInTime` | internal/adapter/outbound/db/outbox.go:107-128 | so such a row is dead-lettered by its (maxAttempts + maxDeliveries - 1)-th settlement |
| `Leases.ClaimsStayExclusive` | internal/config/config.go:504-515 | with a TTL of at least the longest settling time every run keeps at most one live worker per row, each owning its claim |
| `Leases.ValidatedClaimsNeverReaped` | internal/config/config.go:504-515 | under the validated limits no live claim is ever reaped |
| `Leases.ShorterTTLReapsLiveClaim` | internal/adapter/outbound/db/outbox.go:222-244 | with any shorter TTL some run reaps a live claim, so the bound is exact |
| `Leases.StaleWorkerSettlesOthersClaim` | internal/adapter/outbound/db/outbox.go:69-75 | with any shorter TTL some run lets a stale worker settle another worker's claim |
| `Pipeline.BackupPipeline.PendingTargets` | internal/domain/backup.go:294-309 | the planning loop computes the plan and the breaker it leaves |
| `Pipeline.PlanDecides` | internal/domain/backup.go:294-309 | a target is fanned to exactly when it is not stored and the breaker as it was before planning lets it through; skipped is reported exactly when one was refused |
| `Pipeline.BackupPipeline.RecordCircuit` | internal/domain/backup.go:334-341 | folds every outcome into the breaker in order |
| `Pipeline.RecordAllEach` | internal/domain/backup.go:334-341 | with distinct names each pending target's window and open entry end as one recording of its own outcome would leave them |
| `Pipeline.RecordAllOthers` | internal/domain/backup.go:334-341 | every other target's window and open entry stay as they were |
| `Pipeline.BackupPipeline.ClassifyFanout` | internal/domain/backup.go:348-372 | the status rows, whether a reachable target failed, whether all stored; the breaker is only read |
| `Pipeline.RowsSay` | internal/domain/backup.go:348-372 | the rows name each target at most once, and hold a stored row exactly for each target that stored |
| `Pipeline.FailedRowsSay` | internal/domain/backup.go:348-372 | a failed row exactly for each reachable target that failed in an attempt that was not aborted; a stored row carries the bytes its target stored, a failed one none |
| `Pipeline.BackupPipeline.JudgeFanout` | internal/domain/backup.go:223-253 | classification, ledger write and verdict for whatever the breaker says by then |
| `Pipeline.BackupPipeline.ConcludeFanout` | internal/domain/backup.go:209-253 | after the fan-out: verdict, breaker and ledger are those of `Conclude`, about which `ConcludeFolds`, `ConcludeLeavesOthers`, `ErrorExactly`, `ConcludeWrites`, `DoneExactly` and `DeferredExactly` speak |
| `Pipeline.ConcludeFolds` | internal/domain/backup.go:209-222 | an attempt adds its outcome to the history of each pending target exactly when it ran to its end or was cut off by its deadline after the stream had verified; otherwise the breaker is as it was |
| `Pipeline.ConcludeLeavesOthers` | internal/domain/backup.go:209-222 | a target that was not pending keeps its circuit |
| `Pipeline.ErrorExactly` | internal/domain/backup.go:198-253 | which error an attempt answers and what size it records, each exactly when |
| `Pipeline.BackupPipeline.BackupFrom` | internal/domain/backup.go:180-253 | done leaves the object stored on every configured target; a malformed key, no targets or a failed ledger read change nothing; otherwise the plan's conclusion is recorded |
| `Pipeline.DoneExactly` | internal/domain/backup.go:180-253 | done exactly when nothing was skipped, nothing aborted and every pending target stored; the verdicts exclude each other |
| `Pipeline.DeferredExactly` | internal/domain/backup.go:241-253 | deferred exactly when not done, without a source failure, and each failed target has an open circuit (so an abort after every store finished is deferred) |
| `Pipeline.SourceFailureRecordsNothing` | internal/domain/backup.go:198-211 | a source failure writes nothing to the ledger or the breaker |
| `Pipeline.ConcludeWrites` | internal/domain/backup.go:223-240 | the ledger write holds stored rows for exactly the targets that stored, and nothing is done without it |
| `Pipeline.WritesAreTrue` | internal/domain/backup.go:223-240 | a write with a stored row carries the verified size |
| `Pipeline.DoneMeansStored` | internal/domain/backup.go:180-253 | the done-gate, however the breaker changed since the plan |
| `Consumer.Worker.Settle` | internal/adapter/inbound/consumer/consumer.go:228-286 | the columns of the row after each verdict, in the order of the branches; only a charged failure can dead-letter |
| `Consumer.Worker.Process` | internal/adapter/inbound/consumer/consumer.go:200-222 | the row becomes done only with its object stored on every target, and its columns are those of the answer, or of a charged failure after a panic; with no circuit open and every store working the answer is done; no other row moves; a shutdown alone never dead-letters |
| `Consumer.AnswersDone` | internal/adapter/inbound/consumer/consumer.go:200-222 | where no circuit keeps a target out and every store works, the object is done |
| `Protocol.StepKeeps` | internal/domain/backup.go:180-253 | every step of claim, read, plan, fan-out, late commit, record, settle, reap, panic and crash keeps the protocol invariant |
| `Protocol.StoredMeansBackedUp` | internal/adapter/outbound/db/queries/ledger.sql.go:118-136 | at every point of every run a stored record of a configured target is backed by a commit of its encoding of the verified plaintext, whose length is the recorded size |
| `Protocol.DoneMeansBackedUp` | internal/domain/backup.go:161-253 | at every point of every run a done row's plaintext is committed on every target, recorded stored there, with its true size |
| `Protocol.NothingIsLost` | internal/adapter/outbound/db/queries/ledger.sql.go:118-136 | no step un-stores, un-commits or re-keys anything |
| `Protocol.OverwritesAreIdentical` | internal/domain/backup.go:578-596 | two commits of one object to one target, however late, are the same bytes |
| `Protocol.FanIsBacked` | internal/domain/backup.go:474-524 | the results a finished fan-out hands to the pipeline are backed by commits |
| `Progress.ClaimableCanBeDone` | internal/adapter/inbound/consumer/consumer.go:200-286 | from any world, whatever is in flight, a free worker can take any claimable row with a well-formed key and an existing plaintext through claim, plan, fan-out, record and settle to done |
| `Outage.OnlyOneTargetFailed` | internal/domain/backup.go:241-252 | whatever the breaker says at classification, an attempt in which one target failed is deferred if its circuit is open there, else charged |
| `Outage.FoldIsOneFailure` | internal/domain/backup.go:334-341 | folding a whole attempt adds exactly one failure to the history of a target that failed in it |
| `Outage.CutOffCharged` | internal/domain/backup.go:326-372 | an attempt cut off before the stream verified folds and records nothing, and is charged exactly when the failing target's circuit or that of another pending target is closed |
| `Outage.OpenCircuitStillCharges` | internal/domain/backup.go:348-372 | any run, its circuit open or not, goes on with such an attempt and is charged for it |
| `Outage.FailuresTrip` | internal/domain/circuit.go:92-101 | threshold failures in a row trip the breaker after any history |
| `Outage.FreshTripsExactly` | internal/domain/circuit.go:92-101 | from an empty window it takes exactly threshold of them |
| `Outage.FailingBackupsOpen` | internal/domain/circuit.go:79-102 | from any reachable breaker threshold consecutive backups in which a target fails leave its circuit open, whatever they backed up and whatever the other targets did |
| `Outage.OutageChargesFewer` | internal/domain/circuit.go:59-114 | a whole outage charges at most threshold - 1 attempts plus those cut off unfolded, from any reachable breaker and under any interleaving; after threshold folded failures the circuit is open |
| `Outage.ChargesReachTheBound` | internal/domain/backup.go:326-331 | for every number of cut-off attempts some outage charges exactly that bound |
| `Outage.LaterOnesDefer` | internal/adapter/inbound/consumer/consumer.go:263-275 | once the circuit is open it stays open and no attempt whose outcome reached the breaker is charged; only cut-off attempts still are |
| `Outage.OutageDeadLettersNothing` | internal/config/config.go:516-523 | a row that began the outage at attempts 0 is dead-lettered only if threshold - 1 plus its own cut-offs reach maxAttempts, so never without cut-offs when threshold is at most maxAttempts |
| `Outage.DeadLetterReached` | internal/config/config.go:516-523 | whenever they add up to maxAttempts some outage dead-letters such a row |
| `Outage.ValidatedOutageIsSafe` | internal/config/config.go:516-523 | under the validated limits no outage dead-letters a row that began it at attempts 0 and was never cut off itself |
| `Restore.Dest.CopyVerify` | internal/domain/restore.go:262-275 | what is written, and whether it was over the cap, unwritable, unreadable or of another hash |
| `Restore.Dest.DecodeRaw` | internal/domain/restore.go:281-292 | corruption is reported only for bytes that were read in full or past the cap |
| `Restore.Dest.DecodeZstd` | internal/domain/restore.go:299-342 | a tracked source error wins over everything; every other failure asks for the raw retry |
| `Restore.Dest.DecodeStream` | internal/domain/restore.go:183-230 | success leaves content that hashes to the key and fits the cap; the outcome is `DecodeOutcome`, which `OutcomeExactly` characterises |
| `Restore.OutcomeExactly` | internal/domain/restore.go:183-342 | over all fetches and accidents, success, corruption, and each fetch, peek, source and rewind error exactly when, in terms of what was read and what could be written |
| `Restore.CorruptionIsDetected` | internal/domain/restore.go:183-342 | any stored bytes, read in full and written without accident, are restored exactly when they have an admissible reading and judged corrupt exactly when they have none |
| `Restore.LegitimateFits` | internal/domain/restore.go:34 | the input limit never truncates the encoding of a plaintext within the cap |
| `Restore.InputIsBounded` | internal/domain/restore.go:34 | bytes past the input limit change nothing |
| `Restore.RoundTrip` | internal/domain/restore.go:183-230 | every plaintext within the cap, stored raw or compressed, decodes to itself, also when raw bytes start with the magic or are a frame of something else |
| `Restore.CorruptExactly` | internal/domain/restore.go:183-342 | over every pair of fetches delivering a good object in whole or in part and every accident: it is judged corrupt if and only if it is stored compressed, the destination stops the zstd pass before a source error is met, and the raw retry gets to judge bytes that are not the plaintext |
| `Restore.SourceFaultIsNotCorruption` | internal/domain/restore.go:183-230 | so no combination of failing fetches and cut-off reads reports corruption on a destination with room for the plaintext, nor on any for an object stored raw |
| `Restore.WriteFaultBecomesCorruption` | internal/domain/restore.go:299-342 | and on clean fetches of a compressed object corruption is reported if and only if the first pass cannot be written and the rewind and raw retry go through |
| `Restore.RestoreDir.RestoreObject` | internal/domain/restore.go:63-92 | the only file ever put in place is verified plaintext; a malformed key, a skip (exactly when present, readable and intact), an interruption, a failed decode and a publish each give their own result, and only a publish changes the file; other files never change |
| `Restore.BackupRestores` | internal/domain/restore.go:46-57 | whatever codec a committed copy was written with, it restores to the plaintext of its key |
| `Recovery.EveryCommitRestores` | internal/domain/restore.go:183-230 | over every run, every copy any sink committed restores to the plaintext of its key |
| `Recovery.DoneIsRecoverable` | internal/domain/restore.go:46-57 | for a done row each target alone suffices to restore its plaintext, from whichever full commit of the object it serves |
| `Reconcile.Reconciler.OrderSources` | internal/domain/reconcile.go:173-187 | the order does not depend on map iteration |
| `Reconcile.SourceOrderFacts` | internal/domain/reconcile.go:164-187 | every holder once, no healthy one after a circuit-down one, and by name within each of the two |
| `Reconcile.IntactHolder` | internal/domain/reconcile.go:214-239 | a holder with a committed copy yields the backed-up plaintext |
| `Reconcile.CorruptHolderFansNothing` | internal/domain/reconcile.go:214-239 | a corrupt holder never reaches a destination |
| `Reconcile.Reconciler.TryHolder` | internal/domain/reconcile.go:117-139 | one try: done means fully replicated, an undecodable holder leaves the ledger alone |
| `Reconcile.Reconciler.Repair` | internal/domain/reconcile.go:109-162 | Repaired means stored on every target; one intact holder suffices with accepting destinations, closed circuits and no interruption; without an intact holder the ledger is unchanged; no other object is touched; NoHolder exactly when no holder is configured; a source failure during a shutdown is counted cancelled and never failed |
| `Reconcile.FoldKeepsHealthy` | internal/domain/backup.go:334-341 | folding successes opens no circuit |
| `Reconcile.ClosedIsHealthy` | internal/domain/circuit.go:79-102 | no success can open a closed circuit of a reachable breaker |
| `Reconcile.PassEnds` | internal/domain/reconcile.go:79-95 | a pass that visited every gap leaves exactly the unrepairable ones |
| `Reconcile.CountIt` | internal/domain/reconcile.go:109-162 | one visit moves one counter: skipped exactly without a configured holder, repaired only with an intact one |
| `Reconcile.Reconciler.Run` | internal/domain/reconcile.go:79-95 | a pass adds no gap and counts none twice, and counts all unless the parent context ends, skipped exactly those without a configured holder; undisturbed, it leaves in the work-list exactly the objects with no intact configured holder or a malformed key, and repaired counts all others |
| `Order.PageSplit` | internal/adapter/outbound/db/queries/ledger.sql.go:205-209 | a page followed by the scan from its last row is the whole scan |
| `Keyset.KeysetPull.Next` | internal/domain/keyset.go:44-71 | the pull form delivers the scan one by one, in order, and ends only when a short page was read |
| `Keyset.KeysetLoop` | internal/domain/keyset.go:23-37 | over a changing table ids come in strictly ascending order, and every id that stays for the whole sweep is visited |
| `Sampling.SampleOrderIsExact` | internal/domain/audit.go:257-304 | the reference order holds every id but the start exactly once |
| `Sampling.TrimAtBoundary` | internal/domain/audit.go:308-315 | keeps exactly the leading ids below the boundary |
| `Sampling.KeysetSample` | internal/domain/audit.go:257-324 | for any page size the sampled sweep emits exactly the first ids of that order up to the budget, and terminates; a failed page or a refused emit leaves a prefix |
| `Coverage.GaugeCountsGaps` | internal/adapter/outbound/db/queries/ledger.sql.go:15-23 | the gauge, computed by subtraction, is the number of objects in the gap work-list |
| `Coverage.GapStoredIsProper` | internal/adapter/outbound/db/queries/ledger.sql.go:298-307 | with distinct names a gap's stored set is a proper subset of the targets |
| `Coverage.FullyStoredLeavesGaps` | internal/adapter/outbound/db/queries/ledger.sql.go:298-307 | an object on every target leaves the work-list if and only if the names are distinct |
| `Coverage.GapMeaning` | internal/adapter/outbound/db/queries/ledger.sql.go:298-307 | with distinct names an object is in the work-list exactly when some target lacks it |
| `Coverage.TargetGaps` | internal/adapter/outbound/db/ledger.go:123-131 | the paged sweep yields each gap once, in order, with the targets that hold it, as many as the gauge counts; a fault or a refusal leaves a part |
| `Inventory.ManifestScanner.Next` | internal/domain/inventory.go:280-330 | one pull delivers the head of the scanner's stream, its error or its end |
| `Inventory.StrictIsAscending` | internal/domain/inventory.go:280-330 | the strict scanner yields an ascending stream on any file |
| `Inventory.GoodPrefixWhole` | internal/domain/inventory.go:280-330 | it yields a manifest whole if and only if the manifest is ascending |
| `Inventory.LooseFault` | internal/domain/inventory.go:280-330 | how a scan ends, both ways for each ending: corruption exactly when some line does not parse or is too long, and a cut-off read exactly as it was cut off |
| `Inventory.StrictOrLoose` | internal/domain/inventory.go:275-330 | the strict scanner stops at a key out of order or does exactly what the other does |
| `Inventory.MergeInventory` | internal/domain/inventory.go:234-268 | with or without an error, extra counts the entries read that are neither stored nor first occurrences; without one, missing counts the stored ids not listed |
| `Inventory.AscendingCountsAreDifferences` | internal/domain/inventory.go:234-268 | for ascending lists the two counts are the two set differences |
| `Inventory.CollectManifestIDs` | internal/domain/inventory.go:166-181 | every id of the file, or the bound or the scanner's error |
| `Inventory.Classify` | internal/domain/inventory.go:209-228 | an error never reads as a comparison; it is benign exactly without a manifest or on a shutdown, and corruption exactly when the manifest is corrupt |
| `Inventory.InventorySortedDiff` | internal/domain/inventory.go:144-160 | the fallback's verdict does not depend on the manifest's order, a Drift has a witness, Verified means a complete match, and a manifest that is not well formed is told damaged from cut off |
| `Inventory.InventoryProbe` | internal/domain/inventory.go:88-118 | a Drift has a witness in a manifest that was read, and Verified means a complete match, against the ledger it was compared with; when nothing changes in between the two-stage probe gives the exact verdict on every manifest, well formed, damaged or cut off |
| `Inventory.ProbeVerdictExact` | internal/domain/inventory.go:88-160 | Drift exactly when some listed id is not stored or listed twice, Verified otherwise, up to the size bound |
| `Inventory.RepeatedIdDrifts` | internal/domain/inventory.go:144-160 | a manifest of stored ids with a repeat drifts |
| `Manifests.NamesOrderAsTimes` | internal/fsutil/fsutil.go:196-198 | names of four-digit years order lexically as their instants do |
| `Manifests.FormattedNamesParse` | internal/fsutil/fsutil.go:181-198 | a formatted name is accepted by the parser if and only if its year is 0 to 9999 |
| `Manifests.AcceptedNamesAreFormatted` | internal/fsutil/fsutil.go:181-198 | an accepted name with a period and nine digits is the formatted name of an instant of a four-digit year |
| `Manifests.AcceptedElseOddFraction` | internal/fsutil/fsutil.go:181-188 | every other accepted name has a comma or a sign in its fraction |
| `Manifests.NewestIsFirst` | internal/fsutil/fsutil.go:299-308 | the newest valid name is the first one tried |
| `Manifests.NewestOf` | internal/fsutil/fsutil.go:246-296 | the fast path's loop finds the newest name at or after the pointer |
| `Manifests.OpenLatestManifest` | internal/fsutil/fsutil.go:246-296 | the pointer path gives what a plain newest-first scan gives, if and only if the pointer does not name an openable unlisted newest manifest |

## Left out

- S3, filesystem, HTTP and Postgres drivers: only the sink contract (a nil error means that the bytes read are durably committed) and the row effects of the SQL statements are modelled.
- SHA3-256 and zstd themselves: parameters with stated hypotheses.
- Real clocks, scheduling and context internals: clock reads, context ends, faults and cancellations are parameters or nondeterministic steps.
- Metrics, logging, verdict strings, health probes, CLI, configuration loading, pools, rate pacing, LISTEN/NOTIFY, manifest writing: plumbing that no property here rests on.
- `RestoreAll`, `Drill` and backfill sweeps: not modelled as sweeps. Each is the keyset sweep of `Keyset` or `Sampling` around `RestoreObject`, `DecodeStream` or `BackupFrom`, which are modelled; backfill's own backups are the `Start` steps of `Protocol`.
- `VerifyObject`: `DecodeStream` into a discarding destination; its missing rewind is a rewind that cannot fail.
- The existence audit's tally and the immutability probe: settled by reading one switch.
- FanoutSafety.BadSourceCommitsNothing: a sink that commits before the end of its stream, against its contract, makes a partial commit, which is excluded from being reported stored and not from happening.
- Recovery.DoneIsRecoverable: ranges over full commits, that is, over sinks that commit only at the end of their stream; a partial commit that overwrites a full one is not modelled.
- FanoutLiveness.GoodSourceStores: some run, since sinks may fail and contexts end in others; what every run reports of its source is `FanoutLiveness.SourceIsReported`.
- Progress.ClaimableCanBeDone: some run, for the same reason; that a scheduler takes it is not modelled.
- FanoutTermination.FanoutReturns: takes that the source's reads fail once the context has ended, as those of a cancelled stream do, and leaves scheduler fairness out.
- FanoutSafety.CollectTerminates: counts the dispatcher's and pumps' own steps and proves that one is always enabled; fairness of the scheduler is not modelled.
- Protocol.StepKeeps: a fan-out that returns is one step of the outer system, which is sound because a fan-out touches only the targets; commits of one that crashed, is still going, or left a store running are the `SinkCommits` steps.
- Consumer.Worker.Process: a panic strikes before the backup's effects or after all of them; panics between two effects are the `Panic` steps of `Protocol`.
- Outage.OutageChargesFewer: counts attempts whose outcome for the failing target is folded after the outage began; attempts already folded but not yet classified at that moment are not counted.
- Reconcile.Reconciler.Run: repairs of a page run one after another; that they may overlap is left out, repairs of different objects touching different rows (`OnlyObject`). Reading the work-list does not fail in it. When the parent context ends, a repair in flight may still finish.
- Coverage.TargetGaps: over a ledger that does not change; the sweep of a changing one is `Reconcile.Reconciler.Run`, and `Keyset.KeysetLoop` for any changing table.
- Inventory.InventoryProbe: each pass compares with one ledger snapshot.
- Leases.ValidatedClaimsNeverReaped: takes perObjectTimeout >= 0, which applyDefaults provides, and that a live worker settles within its timeout plus two bookkeeping windows.
- Keyset.KeysetLoop: ids come from a finite universe, without which a table that grows ahead of the cursor could keep the sweep going for ever.
- Keyset.KeysetPull.Next: instantiated at identifier cursors; the generic cursor and item types are not modelled.
- Inventory.MergeInventory: takes its two iterators as the streams of values they deliver, not as closures over state.
- LedgerStore.LedgerRepo.RecordBackup: createdBy, sourceCreatedDate and first-seen columns are not modelled; no property reads them.
- Restore.Dest.DecodeStream: a write error is the point at which the destination stops taking bytes; chunk boundaries inside a copy are not modelled.
- Manifests.OpenLatestManifest: names are given as one listing that does not change during the call.
