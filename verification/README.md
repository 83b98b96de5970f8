# Delivery, credentials and small state machines of Zeus

This project models the parts of Zeus on which its durability and access
promises rest, and proves those promises for every run.

- **Durable delivery.** The agent appends events to segment files, sends them in
  greedy batches, checkpoints after a checked acknowledgement and removes finished
  segments; the Hub commits receipts, budgets and rows in one transaction,
  deduplicates replays and later cleans up. `Spool` is the agent as a step system
  over single file operations, with appends interleaved into a running drain and
  crashes anywhere; `Ledger` and `HubLife` are the Hub; `Delivery` runs both
  together over a network that loses, repeats and reorders. `Intake` follows a record
  from the append to its row, `Progress` shows that a batch the Hub would take gets
  through, `Blocking` follows a record the Hub can no longer take, `Quarantine` what is
  set aside, and `LedgerRules` says when the Hub takes a batch. `Queue` and `HubStore`
  are the same programs as objects with loops, proved against those functions.
  `SegmentFile` goes down to bytes and file offsets.
- **Credentials.** `Registry` holds the key, handshake and epoch tables under every
  sequence of statements, `RegistryRules` says when each takes effect, and
  `RegistryStore` is the imperative form. `AuthCache` puts
  one replica's cache over that registry, each request moving in small steps so
  that all interleavings of lookups, insertions, invalidations, revocations and
  epoch syncs are covered; `AuthLimits` shows its time bounds to be exact;
  `AuthReplica` is its imperative form.
- **Alerts, rate limits, paging, sessions.** `Alerts`, `AlertRules`, `Evaluator`, `RateLimit`,
  `ReadPage`, `Paging`, `Sessions`.

A step system is a total function of a state and an action, and a run is any
sequence of actions; an action that is not possible changes nothing.

## Assumptions

- SHA-256 over the JSON encoding of an event is injective (`Ledger.Injective`); some
  hash is (`Ledger.InjectiveIsPossible`).
- For the segment file the JSON codec is a parameter that inverts itself on the
  records it takes, those with a compact JSON body, writes each as one non-blank
  line and rejects anything starting with a NUL (`SegmentFile.Faithful`); some codec
  does (`SegmentFile.FaithfulIsPossible`).
- The Hub authenticates a request as the tenant and server of the binding it was
  sent under, also when the binding is derived from the credential
  (agent/agent.go:289-303) and when the key is exchanged on the way.
- A reply reaches the agent only on the connection of a request with the same
  scope and events, as HTTP sees to. Where an event identifier stands for one event,
  the agent's check alone does (`Delivery.CheckFindsRequest`).
- Clocks never go back. New segment names increase; tokens and session ids are
  fresh where a statement says so.
- In `Spool`, a file write completes, is torn by a crash, or fails without moving
  the file offset. `SegmentFile` drops this and proves when it matters.
- A crash loses memory and keeps what was written. Renames, checkpoints and the
  binding file are durable once done; a removed segment may come back until the sync
  that follows its removal. Later syncs are not counted as settling it.
- Measurements, tokens and rates are real numbers.

## Where a natural claim is false

- A segment is read back as written unless an append succeeds after one that
  wrote part of its line and was rolled back: the rollback at agent/spool.go:248
  truncates but leaves the offset behind the end, so the next line starts after
  a run of zeros and the whole segment is unreadable (`SegmentFile.RoundTrip`). A
  record whose append was reported good loses its end exactly if a rollback, even
  one with nothing to undo, comes after such a success (`SegmentFile.RecordsIntact`,
  `SegmentFile.RollbackCutsRecord`).
- A revoked key is refused within 5 s of the epoch bump only where requests and
  syncs do not pause. For every pair of pauses x and y, of the request after its
  epoch check and of the sync after its read, a cached acceptance can be served d
  after the bump exactly if d <= 60 s and d < 5 s + x + y (`AuthLimits.ExactDelay`,
  `AuthLimits.PromptExactly`).
- A cached acceptance was resolved within the last 60 s only if it was stamped at
  once: the registry answers at server/auth.go:262 and the clock is read at
  server/auth.go:276. With a pause z between the two it is served d after its
  resolution exactly if z <= d <= 60 s + z (`AuthLimits.ExactAge`), and d after a
  revocation exactly if d <= 60 s + z (`AuthLimits.ExactLimit`).
- A queued record need not be delivered in the end: once its 30-day window closes at
  the Hub without its row there, it never is, and the queue stands still behind it
  until its segment goes to quarantine (`Blocking.Stuck`); the window closes on every
  record that waits long enough (`Blocking.WindowCloses`).
- A recovered enrollment token need not be active (`Registry.RecoveredMayBeRevoked`);
  it is, exactly if no step since its issue revoked it and the terms an operator
  stored for it, if any, permit it (`Registry.RecoveredResolves`).
- A drain gets past a segment only if every record left in it is at most 130,048
  bytes (`Batching.BatchesTile`), although longer ones are admitted.
- The limiter's bound and the harmlessness of its sweep hold of a key exactly if its
  burst is at least one token (`RateLimit.SmallBurstFails`).
- The disk budget can be passed: a run is given that ends with 100 MiB and 101 bytes
  (`SpoolOverrun.OverBudget`). It is passed exactly by a crash that brings back more
  than there is room for (`SpoolBound.BudgetPassed`), which takes a failed directory
  sync (`SpoolBound.DiskBudget`).

## Model

| member | source | states |
|---|---|---|
| `Delivery.ExactlyOnce` | agent/spool_batch.go:59-99 | in every run of agent, network and Hub, with crashes, lost requests and replies, replays and cleanups, a record that was ever below its checkpoint has exactly one row at the Hub it was queued for from then on, also after its segment is removed or quarantined |
| `Delivery.NeverTwice` | storage/ingest.go:142-198 | in every such run no event of any sender has two rows |
| `Delivery.NothingLost` | agent/spool_batch.go:21-104 | every record whose append succeeded has its one row, or waits in a live segment at or after the checkpoint, or is in quarantine |
| `Delivery.AlwaysSound` | agent/agent.go:415-433 | the joint invariant: everything below a checkpoint or in an acknowledged batch is at the Hub, and the Hub only acknowledged what it holds |
| `Delivery.CheckAcknowledgement` | agent/agent.go:415-433 | a reply passes exactly if it is accepted and answers every sent event in order |
| `Delivery.CheckFindsRequest` | agent/agent.go:428-432 | in every run, a reply to any request of the scope that passes this check answers this very request, if an event identifier stands for one event |
| `Intake.GivenIsKept` | agent/spool_batch.go:21-104 | in every run, at every moment after an append succeeded, the very event it was given, with its identifier, boot, sequence and sample, has exactly one row at the Hub, tenant and machine it was meant for, or waits at or after the checkpoint, or is in quarantine |
| `Intake.GivenExactlyOnce` | agent/spool_batch.go:84-88 | from the moment its record lies below the checkpoint, the event given to a successful append has exactly one row in every continuation |
| `Intake.StoredAsGiven` | agent/spool.go:224-258 | after every run the k-th stored record holds the event, length and destination of the k-th append that succeeded |
| `Intake.TakesExactly` | agent/spool.go:229-257 | a step stores a record exactly if it is a synced append to a bound spool within 1 MiB per line and 100 MiB in all, and then the one given, last in a live segment |
| `Progress.BatchGetsThrough` | agent/spool_batch.go:81-88 | whenever the agent waits for a batch the Hub would take, receiving it, the reply and the checkpoint move the queue past the whole batch, whose records then have their one row for good |
| `Blocking.Stuck` | agent/agent.go:443-445 | in every run, once the Hub's window has closed on a queued record without its row, no later run delivers it: it is in quarantine, or at or after its checkpoint with no later segment handed over or checkpointed since |
| `Blocking.StandsStep` | agent/spool_batch.go:36-104 | no step of the agent moves a record at or after its checkpoint, except into quarantine, or touches a later segment's checkpoint or hands it over |
| `Blocking.WindowCloses` | storage/ingest_contract.go:168-170 | waiting closes the window on every queued record without a row |
| `SpoolHistory.DestinationSafety` | agent/spool.go:94-127 | every record handed to delivery was queued under a binding with the same Hub origin, tenant and server as the one in force, with crashes midway through quarantining |
| `SpoolHistory.FirstDeliveriesInOrder` | agent/spool.go:315-338 | when a stored record is first handed over, every record stored before it was handed over earlier or is in quarantine, across segments, restarts and rebinds; what is handed over is what was stored |
| `SpoolHistory.AlwaysTraced` | agent/spool_batch.go:90-96 | every stored record is in a live segment, in quarantine, or was handed over |
| `SpoolHistory.AlwaysGood` | agent/spool.go:154-188 | the invariant of files, checkpoints, binding, drain position and history holds in every run |
| `Quarantine.KeepsStep` | agent/spool.go:154-196 | at every step quarantine loses nothing, gains only segments of the queue, and each segment there has the checkpoint it had |
| `Quarantine.QuarantineKeeps` | agent/spool.go:170-196 | a quarantined segment is there for good, with the records and the checkpoint it came with |
| `Quarantine.QuarantinedDelivered` | agent/spool.go:45-48 | in every run a quarantined record below its segment's checkpoint has exactly one row at its Hub |
| `SpoolBound.DiskBudget` | agent/spool.go:260-313 | live and quarantined segments stay within 100 MiB plus what crashes restored after failed directory syncs, no segment exceeds 8 MiB, and nothing is so restored if no sync fails |
| `SpoolBound.BudgetPassed` | agent/spool.go:285-313 | from any state within the budget the next step leaves it if and only if it is a crash and the segments then held, with the removed ones it brings back, exceed it |
| `SpoolOverrun.OverBudget` | agent/spool_batch.go:90-103 | a run whose segments end above the budget: a removal whose directory sync fails, appends to the open segment, a crash |
| `Identity.KeptForSameScope` | agent/spool.go:110-125 | a complete binding keeps its queue exactly for the scope it names, and the merged binding is the new one |
| `Identity.SameOriginIsSameSite` | agent/spool.go:110 | two URLs count as the same Hub exactly if they agree in scheme and host |
| `Batching.NextBatch` | agent/spool_batch.go:63-77 | the loop finds the greedy batch: within both limits, and one more record would break one |
| `Batching.GreedyUnique` | agent/spool_batch.go:63-77 | there is only one greedy batch |
| `Batching.BlockedBySize` | agent/spool_batch.go:78-80 | a batch is empty exactly if its first record exceeds 130,048 bytes |
| `Batching.BatchesTile` | agent/spool_batch.go:59-89 | the batches tile the unacknowledged suffix in order, and reach its end if and only if every record in it can be sent |
| `Batching.BodyFits` | agent/spool_batch.go:66-76 | with records that re-encode to at most twice their length plus 1024 bytes, a batch body stays within 256 KiB |
| `Queue.Files.constructor` | agent/spool.go:58-79 | a new queue is the initial state |
| `Queue.Files.Append` | agent/spool.go:224-258 | succeeds exactly if synced, bound, within 1 MiB per line and 100 MiB in all; it then adds the record it was given, and nothing else, at the end of a live segment; touches no sealed segment or checkpoint, and follows the append step |
| `Queue.Files.UsedBytes` | agent/spool.go:285-305 | the directory walk adds up the segment sizes |
| `Queue.Files.Place` | agent/spool.go:260-281 | the open segment is kept while the line fits 8 MiB, otherwise a new one is opened, and the record given goes at its end |
| `Queue.Files.Quarantine` | agent/spool.go:154-168 | every listed segment goes to quarantine and its checkpoint with the same value beside it, unless a file operation fails |
| `Queue.Files.BindIdentity` | agent/agent.go:122-134 | a complete identity is bound; the queue is kept for the same destination and otherwise moved whole to quarantine first; failures leave the old binding; with enough working operations it succeeds |
| `Queue.Files.HandOver` | agent/spool_batch.go:78-81 | the next greedy batch is handed over, or the drain stops on a record too large |
| `Queue.Files.WriteAck` | agent/spool_batch.go:84-88 | the checkpoint moves to the end of the acknowledged batch |
| `Queue.Files.RemoveFinished` | agent/spool_batch.go:90-103 | segment removed, directory synced, checkpoint removed, in that order |
| `Queue.Files.JailHead` | agent/spool_batch.go:43-55 | a torn segment is put on record, goes to quarantine unchanged, then its checkpoint with it; if the record or the rename fails it stays in the queue |
| `Queue.Files.SendSegment` | agent/spool_batch.go:59-89 | the rest of a segment is sent and checkpointed batch by batch while others append; it stops early only on a fault or a record too large |
| `Queue.Files.DrainBatches` | agent/spool_batch.go:17-105 | the log gains unacknowledged records of the segments listed at the start, in order and nothing else; a drain that ends well has handed over all of them and removed those segments; otherwise a listed segment was torn and is in quarantine, a record was too large, or an operation failed, which takes fewer successes than two per record and three per segment |
| `SegmentFile.RoundTrip` | agent/spool.go:242-257 | after any sequence of appends, readSegment returns exactly the records whose append succeeded if and only if none succeeded after a partly written one was rolled back and every type is nonempty; otherwise it fails |
| `SegmentFile.ExactOrHole` | agent/spool.go:246-253 | the file is exactly the successful lines, or a zero where a line should begin that no later append removes |
| `SegmentFile.EncodedReads` | agent/spool.go:468-503 | encoded records are read back exactly if every type is nonempty |
| `SegmentFile.RecordsIntact` | agent/spool.go:244-257 | every record whose append was reported good has all its bytes where they were written, if and only if no rollback comes after a partly written append and a later success |
| `SegmentFile.RollbackCutsRecord` | agent/spool.go:246-253 | how much is lost: a slipped append, a good one and another rollback leave the good record short by the slipped bytes |
| `SegmentFile.Segment.Append` | agent/spool.go:224-258 | the object follows the byte-level append and reports success exactly for a complete write |
| `SegmentFile.Segment.ReadSegment` | agent/spool.go:468-503 | the line loop returns what the specification reads |
| `Contract.NormalizeIngest` | storage/ingest_contract.go:135-173 | accepts exactly the admissible batches, rewriting the events in place to their normal form; a refusal leaves the events after the failing one alone |
| `Contract.NormalizedSettles` | storage/ingest_contract.go:146-167 | normalising twice is normalising once, and keeps identity, time and validity |
| `Contract.NormalizedOwns` | storage/ingest_contract.go:157-164 | the row's tenant and server are the authenticated scope's; giving back the claimed ones restores the event sent |
| `Contract.CheckEvent` | storage/ingest_contract.go:142-171 | the checks in order, value by value, accept exactly the valid events |
| `Contract.WindowExactly` | storage/ingest_contract.go:168-170 | an event once valid is so exactly from one minute before its time to thirty days after it |
| `Contract.AdmissibleExactly` | storage/ingest_contract.go:136-138 | a batch of valid, distinct events is admissible exactly with this schema, 1 to 64 events and a named scope |
| `LedgerRules.CommitsExactly` | storage/ingest.go:142-198 | an admissible batch commits if and only if every event is known, or is new by identifier and by boot and sequence and, with the new events before it, fits the day's rows and bytes of tenant and agent; the first event that does not decides between conflict and exhausted budget; a commit leaves each new event its receipt, its charge on both counters and its row, and changes nothing else |
| `LedgerRules.DebitsExactly` | storage/ingest.go:168-182 | the two updates go through exactly if both counters are below their rows and the bytes fit, and then raise both by the event and no other |
| `Ledger.ReplayConfluence` | storage/ingest.go:142-198 | any two histories of submissions that commit the same events end with the same receipts and the same multiset of rows, whatever the batching, order, repetition and failures |
| `Ledger.FullReplay` | storage/ingest.go:157-163 | a committed batch sent again after any other submissions changes no table and is answered duplicate throughout |
| `Ledger.RunEffect` | storage/ingest.go:142-198 | a run adds exactly the rows and receipts of the committed events not yet vouched for |
| `Ledger.OutcomesAnswer` | storage/ingest.go:146-193 | a committed batch is answered event by event, in order |
| `Ledger.VouchedIsNoOp` | storage/ingest.go:157-163 | events whose receipts exist change nothing and debit nothing |
| `HubLife.AtMostOneRow` | storage/ingest.go:142-198 | no event is inserted twice under any interleaving of submissions, cleanups and clock ticks |
| `HubLife.RowsOwned` | storage/ingest_contract.go:135-173 | in every run a stored row belongs to the tenant and machine it was authenticated for, bears identifiers of the allowed form and holds one sample within range |
| `HubLife.TombstonesOutliveReplays` | storage/ingest.go:217-223 | once cleanup has deleted a row's receipt, every later batch with that event is rejected before a transaction opens |
| `HubLife.BudgetsConserved` | storage/ingest.go:168-182 | in every state a tenant's daily counters equal the sum over its agents and, for days cleanup has not reached, over the receipts of that day, and stay within the policy |
| `HubStore.Store.constructor` | storage/ingest.go:12-29 | an empty store has empty tables |
| `HubStore.Store.AcceptIngest` | storage/ingest.go:112-125 | commits exactly what the ledger function computes, or changes nothing |
| `HubStore.Store.RunTransaction` | storage/ingest.go:142-198 | the event loop computes the batch transaction; any error, at any event or at the commit, rolls everything back |
| `HubStore.Store.CleanupIngest` | storage/ingest.go:217-223 | exactly the receipts and budgets older than 32 days go, by one cutoff; the two deletions may fail separately |
| `HubStore.ApplyQuotas` | storage/ingest.go:168-182 | tenant and agent are both debited, or neither; both exactly if each is below its row limit and the bytes fit |
| `Registry.AlwaysOneActive` | storage/enrollment.go:69-71 | at most one unrevoked agent key exists per tenant and server in every run |
| `Registry.EnrollmentIssues` | storage/enrollment.go:231-309 | an issuing enrollment leaves exactly the new token active, names and revokes the others, counts one use and raises the epoch; it conflicts only if the new hash exists; an error changes nothing |
| `Registry.ReplacementIssues` | storage/enrollment.go:315-383 | the same for a replacement by the operator, without counting a use |
| `Registry.LostReplyRecovery` | storage/enrollment.go:190-210 | after a token is issued, every later call for the same code and server returns it and changes nothing, whatever runs in between, until five minutes pass or the token is touched |
| `Registry.RecoveryEnds` | storage/enrollment.go:190-210 | once touched or expired a token is never handed out again unless issued anew |
| `Registry.TouchEndsRecovery` | storage/apikeys.go:400-410 | a touch ends the recovery of that token |
| `Registry.RecoveredMayBeRevoked` | storage/enrollment.go:190-210 | every issued token that is revoked before it is touched is still recovered, and does not resolve |
| `Registry.RecoveredResolves` | storage/enrollment.go:190-210 | while recovery lasts the recovered token resolves if and only if no step since its issue revoked it and the terms last stored for it permit it; with no store, if and only if nothing revoked it |
| `Registry.IssuedResolves` | storage/apikeys.go:286-325 | the same of every issued token after any run, and it then resolves to a record with those terms |
| `Registry.KeyFate` | storage/apikeys.go:455-524 | a key is revoked by exactly the steps that select or name it, and carries the terms last stored |
| `Registry.UsesConserved` | storage/enrollment.go:239-246 | a code's use count rises by exactly the issuing enrollments and consumptions of a run |
| `Registry.UsesLimited` | storage/apikeys.go:369-376 | with its limit fixed, no run takes a code past it |
| `Registry.RevocationFinal` | storage/apikeys.go:286-325 | a revoked key never resolves or counts a use again, whatever is stored, issued, replaced or touched |
| `Registry.StepKeepsRevocation` | storage/apikeys.go:431-452 | no statement lifts a revocation or lowers the epoch |
| `RegistryRules.EnrollsExactly` | storage/enrollment.go:168-309 | an enrollment issues if and only if the request is complete, no reply is held for it, the code can be used, the hash is new, and the machine has no active key or the operator approved or the request names an active key of that machine; without that last it is refused for want of proof; a refusal changes nothing |
| `RegistryRules.LostOnlyRightly` | storage/enrollment.go:231-237 | in every run a key is lost only to a revocation aimed at it, an operator's replacement of its machine, or an enrollment for its machine that was approved or proved possession |
| `RegistryRules.RecoversExactly` | storage/enrollment.go:190-210 | a reply is given again exactly while it is held, in full, and nothing changes |
| `RegistryRules.RecoveryWindow` | storage/enrollment.go:190-210 | five minutes after its issue a token is not given out again, whatever ran |
| `RegistryRules.ReplacesExactly` | storage/enrollment.go:315-383 | an operator replaces a key exactly if the machine has an active one and the new hash is not stored |
| `RegistryRules.ConsumesExactly` | storage/apikeys.go:362-397 | a code is consumed exactly while it can be used, counted on its own row only |
| `RegistryRules.StoresExactly` | storage/apikeys.go:413-452 | a key is stored exactly if complete and not a machine's second active one; the row gets the terms given and keeps what the registry counts |
| `RegistryRules.RevokesRows` | storage/apikeys.go:455-524 | a revocation stamps exactly the active rows of the client, the hash or the machine |
| `RegistryRules.TouchesRow` | storage/apikeys.go:400-410 | a touch notes the time on its own row and drops exactly the replies held with that token |
| `RegistryRules.ExpiryForgets` | storage/enrollment.go:136-142 | expiring the handshakes leaves no reply held |
| `RegistryRules.ResolvesToRow` | storage/apikeys.go:286-325 | a hash resolves exactly if its row is in force, and then to that very row |
| `RegistryRules.IssuedSpeaksFor` | storage/enrollment.go:268-276 | whatever runs after its issue, a token not stored anew resolves only to an ingest key of the machine it was issued to, for the tenant and client of the code |
| `RegistryStore.IsReplacementAllowed` | storage/enrollment.go:405-418 | approval, or a nonempty hash that is one of the active ones |
| `RegistryStore.ListActive` | storage/enrollment.go:385-403 | the hashes of a machine's active keys, each once |
| `RegistryStore.KeyStore.CompleteEnrollment` | storage/enrollment.go:168-312 | commits exactly the enrollment function, or nothing when a statement fails |
| `RegistryStore.KeyStore.ReplaceAgent` | storage/enrollment.go:315-383 | commits exactly the replacement function, or nothing when a statement fails |
| `RegistryStore.KeyStore.ResolveAPIKey` | storage/apikeys.go:286-325 | resolves unrevoked, unexpired, unexhausted keys that are not enrollment codes, to their own row |
| `RegistryStore.KeyStore.ConsumeEnrollCode` | storage/apikeys.go:362-397 | counts one use of a usable code, and only then |
| `RegistryStore.KeyStore.UpsertAPIKey` | storage/apikeys.go:413-452 | stores the row, keeping counts, times and revocation of a known one; the index may refuse it |
| `RegistryStore.KeyStore.TouchAPIKey` | storage/apikeys.go:400-410 | the registry's run of two statements, the second of which may never come |
| `RegistryStore.KeyStore.RevokeKeys` | storage/apikeys.go:455-524 | revokes the selected active rows, then raises the epoch if there were any, as a run of the registry; a failure between the two leaves the rows revoked and the epoch as it was |
| `AuthCache.CachedAnswerBounded` | server/auth.go:82-112 | in every interleaving an answer from the cache is what the registry answered at an earlier moment, used at most 60 s (a refusal 10 s) after it was stamped, so at most that and the pause before stamping after it was resolved, and never at or after the key's expiry |
| `AuthCache.RevocationTakesEffect` | server/auth.go:325-353 | after a change that raises the epoch with a key revoked, a request still served its acceptance resolved it before the change, is served within 60 s and checked its epoch within 5 s of it, up to the pauses of its stamping and of its sync |
| `AuthCache.PromptRequestsSeeRevocation` | server/auth.go:325-353 | where sync and lookup take no time and the epoch read succeeds, none is served 5 s or later |
| `AuthLimits.ExactDelay` | server/auth.go:243-246 | for all d, x, y: some run serves an acceptance, stamped at once, d after the revocation with a request pause x and a sync pause y, if and only if d <= 60 s and d < 5 s + x + y |
| `AuthLimits.PausedRequest` | server/auth.go:243-245 | a request that pauses after taking its epoch is served up to 60 s later, though every sync is instantaneous |
| `AuthLimits.PausedSync` | server/auth.go:340-353 | so is a request that does not pause, if another sync stamps late what it read before |
| `AuthLimits.PromptExactly` | server/auth.go:325-353 | some run serves it 5 s after the revocation or later if and only if one of the two pauses is not zero |
| `AuthLimits.ExactLimit` | server/auth.go:261-282 | with a pause z between resolving and stamping, some run serves it d after the revocation if and only if d <= 60 s + z |
| `AuthLimits.ExactAge` | server/auth.go:261-282 | some run serves an acceptance d after it was resolved if and only if z <= d <= 60 s + z |
| `AuthCache.AlwaysBacked` | server/auth.go:261-282 | every entry cached, pending or served was the registry's own answer at its recorded moment |
| `AuthCache.ServedSpeaksFor` | server/auth.go:246-282 | in every interleaving an acceptance from the cache carries every column, tenant, server, kind and scope included, of the credential's own row in force when it was resolved; a refusal is served only where there was none |
| `AuthCache.EntryAnswers` | server/auth.go:82-112 | an entry answers exactly for 60 s from its stamp, a refusal 10 s, while no newer epoch is known and the key has not expired |
| `AuthReplica.Replica.Get` | server/auth.go:95-112 | a hit exactly within deadline, epoch and credential life; stale entries are dropped |
| `AuthReplica.Replica.Put` | server/auth.go:114-124 | the entry is stored and the cache never exceeds its cap by more than one |
| `AuthReplica.Replica.Invalidate` | server/auth.go:128-132 | exactly that entry goes |
| `AuthReplica.Replica.CurrentAuthEpoch` | server/auth.go:325-338 | the epoch returned was stamped less than 5 s before, unless the read failed |
| `Alerts.AlertRuns` | alerting/evaluator.go:134-190 | notifications of a rule on a server alternate, a fire first, lie at least the duration apart, each after an unbroken breaching or healthy run spanning it since the one before; firing exactly when the last was a fire |
| `Alerts.NothingMissed` | alerting/evaluator.go:148-188 | after two or more breaching evaluations in a row spanning the duration the rule fires, and after healthy ones it does not |
| `Alerts.EvaluatorRuns` | alerting/evaluator.go:91-199 | the same of the alerts of every key an evaluator sends over any run |
| `Alerts.SentAreNotices` | alerting/evaluator.go:190-199 | the alerts of a key are the notices of its own evaluations, at their times |
| `Alerts.KeysDiffer` | alerting/alert.go:66-71 | rules, tenants and servers without NUL never share a key by accident |
| `Alerts.DistinctNames` | alerting/evaluator.go:134-135 | distinct rule names give each key one duration |
| `AlertRules.AlertsTellTheTruth` | alerting/evaluator.go:134-199 | every alert ever sent reports an evaluation with its rule's metric, severity and threshold and the sample's own value, and for at least the rule's duration before it every sample of that machine was beyond the threshold; for a resolve, none was |
| `AlertRules.BreachIsAlerted` | alerting/evaluator.go:148-188 | when every sample of a machine has been beyond the threshold for the duration, in two evaluations or more, the rule's last alert for it is a fire, and when none has, it is not |
| `AlertRules.ExtractShows` | alerting/evaluator.go:243-269 | the value extracted is the column the metric names; a share of a disk without a size has none |
| `Evaluator.PassExactly` | alerting/evaluator.go:117-131 | a pass evaluates exactly the enabled rules on the newest rows that show their metric |
| `Evaluator.PassOnce` | alerting/evaluator.go:117-131 | and each once |
| `Evaluator.PlacesDiffer` | alerting/evaluator.go:111-113 | a place is a tenant's server |
| `Evaluator.Latest` | alerting/evaluator.go:108-116 | the newest row of each tenant and server, the first one on a tie |
| `Evaluator.Board.EvaluateRule` | alerting/evaluator.go:134-199 | states and history stay what the run so far calls for; an alert names the rule, machine, metric, severity, threshold and value; the history is the last 500 alerts |
| `Evaluator.Board.EvaluateOnce` | alerting/evaluator.go:91-131 | every place's newest row meets every enabled rule once, with the value the row shows; a failed query changes nothing |
| `Evaluator.Board.Active` | alerting/evaluator.go:272-289 | the last alerts of exactly the keys that are firing, critical ones first, then warnings, and newer first among equals |
| `Evaluator.Board.History` | alerting/evaluator.go:292-301 | the last 500 alerts sent, newest first |
| `RateLimit.AdmissionBound` | server/ratelimit.go:37-74 | over any stretch of any run a key is admitted at most burst plus rate times elapsed times, whatever other keys do and whatever is swept |
| `RateLimit.AdmissionNumbers` | server/ratelimit.go:37-74 | the bound in tokens per second as configured, a hundred times as many before authentication |
| `RateLimit.DecidesInNumbers` | server/ratelimit.go:37-74 | a known key is admitted exactly if its tokens and what the seconds since brought, up to the burst, come to one; an unknown one exactly below 10,000 keys; no key counts as anonymous |
| `RateLimit.AllowSpendsOne` | server/ratelimit.go:37-74 | a call is admitted exactly if the key holds a whole token and has a bucket or finds room for one, spends one, and changes no other key's level, swept or not |
| `RateLimit.SweepingInvisible` | server/ratelimit.go:85-96 | below the bucket cap every call is decided as if nothing had ever been swept |
| `RateLimit.IdleIsFull` | server/ratelimit.go:90-95 | a bucket idle long enough to be swept has refilled |
| `RateLimit.SmallBurstFails` | server/ratelimit.go:53-59 | below a burst of one token both statements fail |
| `RateLimit.RateLimiter.constructor` | server/ratelimit.go:27-35 | non-positive parameters become 20 a second and a burst of 60 |
| `RateLimit.RateLimiter.SweepLocked` | server/ratelimit.go:85-96 | once a minute has passed, removes exactly the buckets idle longer than a refill and a minute |
| `RateLimit.RateLimiter.TryAllow` | server/ratelimit.go:37-74 | decides and updates as the specification does |
| `ReadPage.CursorRoundTrip` | server/read_page.go:18-53 | a printed cursor and limit parse back to the same position |
| `ReadPage.IntRoundTrip` | server/read_page.go:34-41 | every 64-bit integer printed is parsed back |
| `ReadPage.AcceptedPages` | server/read_page.go:18-45 | accepted parameters are in range and name a position that prints and parses to itself |
| `ReadPage.IntExactly` | server/read_page.go:24-41 | an integer is digits with at most one sign in front, in range |
| `ReadPage.PaddedPages` | server/read_page.go:20-30 | spaces around the parameters do not matter |
| `Paging.QueryMetrics` | storage/db.go:314-336 | the first rows, up to the bounded limit, of the tenant, server and bounds asked for that lie after the cursor, in (timestamp, id) order |
| `Paging.PageUnique` | storage/db.go:333-336 | there is only one such page |
| `Paging.CompleteReading` | storage/db.go:314-336 | following cursors to the end while rows come and go returns strictly increasing rows, none twice, and every row there throughout exactly once |
| `Paging.ReadsOwnRows` | storage/db.go:314-336 | a reading returns only rows of the tenant and server asked for and inside the bounds, by time and id, and by the end each such row there throughout exactly once |
| `Paging.ReadingEnds` | storage/db.go:314-336 | the pages of a reading hold no more rows than ever matched, so following cursors ends |
| `Paging.CursorContinues` | server/read_page.go:47-53 | the cursor sent with a full page leads to the next page, and a short page is reported complete |
| `Sessions.InsertionProtects` | server/session.go:62-89 | an insertion keeps 4096 in all and 5 per credential; under a fresh id it removes no other credential's unexpired session, none of its own below five and otherwise the soonest one; it is refused exactly if the store is full and the credential has fewer than five; a refused one removes only expired sessions |
| `Sessions.SessionStore.Scan` | server/session.go:65-81 | the scan drops exactly the expired sessions, counts the credential's and finds the one ending soonest |
| `Sessions.SessionStore.Put` | server/session.go:62-89 | inserts as specified and keeps the bounds |
| `Sessions.SessionStore.Get` | server/session.go:91-100 | returns unexpired sessions and drops expired ones |
| `Sessions.SessionStore.Delete` | server/session.go:102-106 | removes that session only |

## Left out

- QueryMetrics: models the metrics table; the process table pages the same way.
- SQL engines, PostgreSQL and its locking: tables are maps, a transaction is one step.
- HTTP handlers, TLS, cookies, origin rules, configuration, installers, the dashboard and collection from the operating system.
- The JSON codec and DecodeIngest, abstracted as stated under Assumptions; duplicate-key and nesting rules are not modelled.
- The legacy identities deliverBatch gives to old queue records (agent/agent.go:337-365), the single-entry Drain (agent/spool.go:405-466) and rewriteSegment.
- A rollback whose own truncation fails (agent/spool.go:248-250).
- Backoff, jitter and Retry-After in drainLoop and retryAfterDelay: timing only, they decide when a drain runs and not what it does.
- MigrateOpaqueTenants, which renames tenants in some tables and not in others.
- Several replicas writing through one cache: each replica has its own, and the registry may change by any statement between two of its steps.
- Calls to the limiter that reach its lock in another order than that of their clock readings.
- Export, retention, purge and the old quota code.
