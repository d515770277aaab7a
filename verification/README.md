# Riposte: a verified model

A Dafny model of the parts of the sharded, two-server Riposte message board where a mistake would lose, forge or
double a message, or split the cluster's mind about who leads it and how its rows are cut. Five parts:

1. **Write, sketch and reveal** (`Modular`, `MulProof`, `Slots`, `Sketch`, `SketchSoundness`, `Table`, `Reveal`,
   `EndToEnd`). A client splits one
   message into two key vectors and a mask; each server expands its vector row by row into one of several local
   tables; the XOR of the two dumps is the messages. A linear sketch and a shared multiplication proof check every
   upload. The slot hash, the row PRF and the challenge PRF are arbitrary functions, the modulus is any odd number
   (prime where soundness needs it), and the table sizes are positive parameters.
2. **The shard leader's ingestion** (`Queue`, `Ledger`, `LeaderControl`, `ControlLaws`, `Ingestion` and its proofs,
   `IngestionLaws`, `CommitHistory`, `Wakeup`, `DirectMerge`, `Redelivery`, `DynamoLedger`, `DynamoLimits`, `FanOut`). The control loop, any number of workers, the queue, the
   ledger of completed uploads, the callers that finish epochs and the publication lock form one transition system
   over all interleavings, with a failure possible at every worker step, a redelivery of any message in flight at any
   time, and acknowledgements with receipts that were redelivered meanwhile.
3. **Coordinator leadership** (`Leadership`, `LeadershipLaws`, `LeaseSafety`, `LeaseExclusion`, `LeaseOverlap`,
   `MemoryLease`). Any
   number of coordinators, each with any number of calls in flight, against a store of one conditionally updated
   lease. The update of a call that gives up may be lost, may have landed, or may land later.
4. **Topology and the epoch cycle** (`ShardMap`, `ShardConfigs`, `ControlStore`, `StoreLaws`, `EpochTopology`,
   `TopologyLaws`, `Autoscaler`).
5. **Policies** (`AutoPromotion`, `Scaling`).

`Common` and `Milliseconds` hold what several parts share. Objects the source updates in place are classes
(`SlotTable`, `MemoryQueue`, `MemoryLedger`, `LeaderRuntime`, `MemoryControlStore`, `MemoryLeaseStore`,
`AutoPromoter`); each method is tied to a function of the old state, and the theorems about runs are about those
functions. What each operation does is also stated field by field, without those functions, in the modules whose names
end in `Laws` and beside the operations. `dafny verify dfyconfig.toml` checks everything.

## Where the code does not do what one would expect

Each comes with the exact condition under which the code is right, and with a concrete run or input where one is
named.

- **A direct merge may publish without its uploads.** The drained-queue check is made only when an epoch closes with
  open sessions. A call that finds no open session merges at once. `DirectMerge.DirectMergeIsSafeIff`: however the run
  goes on, that merge publishes committed uploads only exactly if everything in the queue at the call was committed,
  which an empty queue, as the statistics show it, ensures. `DirectMerge.DirectMergeCanPublishUncommitted` is a
  six-step run that publishes while the epoch's only upload still waits in the queue.
- **A cached lease may outlive the stored one.** A renewal reads the clock before its update lands, so two overlapping
  renewals of one coordinator can land in the other order and move the stored expiry back, and so can a renewal that
  got no reply and lands after the next one. `LeaseOverlap.OverlappingRenewalsMakeTwoLeaders` and
  `LeaseOverlap.LateRenewalMakesTwoLeaders` are runs that end with two coordinators holding unexpired cached leases.
  The condition is that no landing renewal carries an earlier expiry than the stored one: `LeaseExclusion.BoundKeptIff`
  and `LeaseExclusion.LeaseSafetyHolds` say that without such a step leadership is exclusive, and
  `LeaseOverlap.LoweringMakesTwoLeaders` that one such step, against a lease its holder has cached, lets any other idle
  coordinator lead beside it.
- **A client can choose the integer it claims so that a bad upload's sketch fits together.** An upload that writes to
  two slots is caught, unless their weights are equal modulo p, if its claimed integer is the sum of both slots' gaps:
  `SketchSoundness.TwoSlotsConsistentIff` and `SketchSoundness.TwoSlotsAreCaught`. For other claims this fails, and
  `SketchSoundness.AnotherClaimCanFit` is an upload that shows it. What holds for every claim and any number of slots is
  `SketchSoundness.FewWeightsFit`: of all residues the challenge may give a slot, at most two let the sketch fit.
- **The in-memory lease can be shortened.** A renewal with a smaller time to live moves the stored expiry back, and the
  lease granted before stays longer unexpired than the store believes: `MemoryLease.ShorteningLetsAnotherIn`. Without
  such a call unexpired grants have one holder (`MemoryLease.UnexpiredGrantsAgree`), and coordinators that always ask
  for the same time to live never make one (`MemoryLease.SteadyTimesNeverShorten`).
- **A pointer may resolve to another upload of the same identity.** Payloads are stored under shard, epoch and uuid
  only, and a pointer resolves to the last payload stored under its identity (`FanOut.ResolvesToTheLast`): to a finished
  call's own message unless another call stores a different one (`FanOut.FinishedCallResolves`), which
  `FanOut.AnotherPayloadReplaces` does in five steps.
- **A second dump repeats the first.** Copying a table out zeroes the shared table and not the local ones, so every dump
  holds everything since the table was created. `Reveal.LaterRevealIsItsEpochOnly` says when a reveal shows its own
  epoch only, `Reveal.SecondRevealRepeatsTheFirst` that any nonzero message shows again in a second reveal after which
  nothing was sent, and `Reveal.ConsecutiveReveals` and `EndToEnd.TwoEpochs` that the XOR of two consecutive reveals is
  the later epoch.
- **An upload processed twice vanishes** from the reveal (`Reveal.PreparedTwiceVanishes`), which is why the ledger's
  exclusion matters.
- **A worker can be overtaken.** `Redelivery.RedeliveryGivesTwoAttempts` is a run in which one queued upload ends up
  with two workers that both hold a lease on it. `IngestionRuns.TakenOverOnlyAfterExpiry` says that the first lease has
  then expired, and `IngestionRuns.TakenOverCompletionIsHarmless` that its completion changes no record.
- **A re-read older than the refusal can make a begin succeed with nothing.** The reads of the code do not ask for
  consistency. `DynamoLedger.EmptyOnlyFromAnOldRead` is the exact condition and `DynamoLimits.OldReadBeginsEmpty` a run.
- **A time to live inside one millisecond can repeat an attempt's name** (`DynamoLedger.SameNameIff`):
  `DynamoLimits.ShortTimesShareAnAttempt` is a run in which two clients hold one attempt, and
  `DynamoLedger.SharedAttemptIsShort` says that it takes such a time.
- **A shrink can raise the number of shards**, exactly when it starts below the minimum
  (`Scaling.ActionsMatchTheirDirection`; `Scaling.ShrinkCanRaise` is an input).
- **Scaling undoes promotions**: it rebuilds the configuration from the inventory's own pairs
  (`ShardConfigs.ScalingUndoesPromotion`). And unless ids are ordered like rows, a rebuilt or seeded configuration can
  be refused at the next restart: `ShardConfigs.ScalingContainedIff` and `EpochTopology.SeedSurvivesRestartIff` say
  when, `EpochTopology.MisorderedCannotRestart` is a run of one call.
- The failed checks of an upload are only logged: `Table.SlotTable.ExpandRow` writes the row whatever the sketch says,
  and `Table.SubmitPrepares` returns the verdicts beside the writes.
- The comment on the modulus says 109 bits; the constant has 104. Nothing here depends on its size.

## Model

| member | source | states |
|---|---|---|
| MulProof.Share | prg/prg.go:40-55 | the shares are residues and sum to the secret modulo p, for any number of shares from one on |
| MulProof.Prove | mulproof/mulproof.go:27-87 | the proof's shares are residues and sum to a random line through a and one through b, to the product of their values at 0, and to a value at 2 that the products of the lines at 2 agree with |
| MulProof.InterpUnique | mulproof/mulproof.go:117-156 | only one residue agrees, when doubled, with the parabola through the three values |
| MulProof.InterpolationIsExact | mulproof/mulproof.go:117-156 | interpolating the values of any quadratic at 0, 1 and 2 gives its value at r |
| MulProof.Deg2Interp | mulproof/mulproof.go:117-156 | the computation with the inverse of two is the interpolation |
| MulProof.Query | mulproof/mulproof.go:91-115 | one verifier's answer is its share of both lines and of the interpolation at r |
| MulProof.Decide | mulproof/mulproof.go:158-178 | accepts exactly if the summed answers multiply: f(r) g(r) = h(r) modulo p |
| MulProof.AnswersAreLinear | mulproof/mulproof.go:91-178 | the answers of all verifiers sum to the answer of one verifier that holds the sums |
| MulProof.AcceptsOnTotals | mulproof/mulproof.go:91-178 | whether a proof is accepted depends on the sums of its shares only |
| MulProof.Completeness | mulproof/mulproof.go:27-178 | for every odd p, point, number of shares and split, an honest proof of c = ab is accepted |
| MulProof.ThreeAcceptingPoints | mulproof/mulproof.go:91-178 | if an arbitrary proof is accepted at three different points, the product claim is true |
| MulProof.Soundness | mulproof/mulproof.go:91-178 | for an odd prime p, a false product claim is accepted at no more than two residues of the random point, whatever the proof shares |
| Slots.XorEq | db/slot.go:50-72 | the in-place XOR leaves the pointwise XOR in its first argument |
| Slots.SlotOfMessageRow | db/slot.go:13-18 | a message's row holds the message at its column and zeros everywhere else |
| Slots.SlotOfXor | db/slot.go:20-22 | the slots of an XOR of rows are the XORs of their slots |
| Sketch.RandomVectorKeys | db/args.go:208-218 | returns exactly as many keys as there are rows, each of the key length |
| Sketch.ComputeMessageMask | db/args.go:148-186 | the mask makes the two expansions of the message's row differ by exactly the message row, and the returned shares are the two rows' slots at the message's column |
| Sketch.InitializeUploadArgs | db/args.go:15-77 | for every message the two queries fit the table and split the message: their expansions agree on every row but the message's, where they differ by the message row |
| Sketch.SetUploadArgs2 | db/args.go:79-108 | the message's integer is the difference of the hashed shares, and its own shares sum to it |
| Sketch.GetTestValues | db/proof.go:80-104 | the client's two test values are the message's integer times the weight of its position, and times the weight squared |
| Sketch.SetUploadArgs3 | db/args.go:110-146 | the third message shares the test values and proves both the square of the first and the product with the message's integer |
| Sketch.UpdateTestValues | db/proof.go:46-54 | one slot adds its value times the weight and times the weight squared |
| Sketch.UpdateRowTestValues | db/proof.go:56-78 | one row adds the weighted sums of its slots, reduced, whatever was summed before |
| Sketch.RowSketchesCancel | db/proof.go:56-78 | the two servers' sketches of rows that differ in one slot sum to that slot's weighted difference |
| Sketch.SketchesCancel | db/proof.go:56-104 | over whole tables the two servers' sketches sum to the message's weighted integer |
| Sketch.SketchSharesSum | db/proof.go:56-104 | the two servers' z shares sum to the client's test values |
| Sketch.TestValuesAgree | db/proof.go:80-104 | the square of the first test value is the message's integer times the second |
| Sketch.OutSharesCancel | db/server.go:803-817 | the servers' out shares of an honest upload sum to zero modulo p |
| Sketch.HonestUploadPasses | db/server.go:613-637 | for every message, position, keys, masks, hash, PRF, challenge, random point and odd modulus, an honest upload passes all checks of both servers |
| Sketch.InconsistentSketchIsCaught | db/server.go:613-637 | for an odd prime modulus, whatever two servers received: unless the square of the summed first sketch share is the summed message share times the second, both servers' checks pass at no more than two of the random points |
| SketchSoundness.SlotsHaveTheirOwnNumbers | db/args.go:195-197 | two slots of a table of any size have one number only if they are the same slot |
| SketchSoundness.SketchesAreGaps | db/proof.go:56-78 | whatever two queries write, the two servers' sketches sum, over all slots, to the difference of the slots' hashes times the challenge at the slot's column times the height plus its row, or that squared |
| SketchSoundness.ConsistentIff | db/server.go:613-637 | the sketch fits together exactly if the square of the first of those sums is the claimed integer times the second |
| SketchSoundness.TwoSlotsConsistentIff | db/server.go:613-637 | with two differing slots and their gaps' sum as the claim, the sketch fits together exactly if a gap vanishes or the two weights are equal modulo p |
| SketchSoundness.TwoSlotsAreCaught | db/server.go:613-637 | so with gaps that do not vanish and different weights, both servers' checks pass at no more than two of the random points |
| SketchSoundness.AnotherClaimCanFit | db/server.go:613-637 | an upload with two differing slots whose claim is another integer and whose sketch fits together |
| SketchSoundness.FewWeightsFit | db/server.go:613-637 | however many slots differ and whatever the claim, at most two residues as the weight of a differing slot let the sketch fit, unless the first sketch of all other slots vanishes |
| Table.SlotTable.constructor | db/table.go:124-132 | starts with zero tables, every token free and nothing written |
| Table.FoldAfterWrite | db/table.go:14-38 | XORing a row into whichever local table XORs it into the fold of all of them |
| Table.SlotTable.TakeToken | db/table.go:34-37 | a token that comes is free: no other row in flight has it |
| Table.SlotTable.XorIntoTaken | db/table.go:34-37 | XORs the row into the table of a token in use and touches no other local table, whatever other rows are in flight |
| Table.SlotTable.ReturnToken | db/table.go:34-37 | frees exactly that token |
| Table.SlotTable.XorIntoLocal | db/table.go:14-38 | whichever free token comes next, the local tables together then hold one more row |
| Table.SlotTable.ExpandRow | db/table.go:14-38 | adds exactly the query's expanded row to what was written, and its weighted sums to the sketch |
| Table.SlotTable.ProcessQuery | db/table.go:49-59 | writes every row of the query and returns the reduced sketch of all of them |
| Table.SlotTable.CopyToAndClear | db/table.go:84-103 | copies out the XOR of everything written since creation and leaves that content in place for the next dump |
| Table.SlotTable.Prepare | db/server.go:779-820 | replies with the out share and both answers computed from the sketch of exactly this query |
| Table.SubmitPrepares | db/server.go:570-641 | both servers write the upload whatever the verdicts are, and the verdicts are the checks of the upload |
| Table.RevealCleartext | db/server.go:759-773 | the revealed matrix is the row by row XOR of the two dumps |
| Reveal.AccumulatedUpToOrder | db/table.go:14-38 | what a row holds depends on the writes and not on their order |
| Reveal.BatchReveals | db/server.go:759-773 | once both servers wrote all queries of a batch, in any orders, each revealed row is the XOR of the message rows sent to it |
| Reveal.ConsecutiveReveals | db/table.go:84-109 | the XOR of two consecutive reveals is the later epoch's messages |
| Reveal.LaterRevealIsItsEpochOnly | db/table.go:84-103 | a later reveal of a row shows its own epoch exactly if the earlier messages of that row cancel |
| Reveal.SecondRevealRepeatsTheFirst | db/table.go:84-103 | a reveal of an epoch in which nothing was sent still shows every nonzero message of the one before |
| Reveal.PreparedTwiceVanishes | db/server.go:508-568 | an upload written twice leaves no trace in the reveal |
| Reveal.SlotOfWritten | db/server.go:759-773 | a revealed slot is the XOR of the messages aimed at it |
| Reveal.SlotWithoutCollision | db/server.go:759-773 | without a collision a revealed slot is the one message aimed at it, or zero |
| Reveal.ExtractPublishedSlots | db/types.go:687-706 | lists exactly the nonzero slots, in reading order, under their global rows |
| Reveal.PublishedIsWhatWasSent | db/types.go:687-706 | without collisions and zero messages, the published slots are exactly the messages sent, at their global rows and columns |
| Reveal.SendMergeRequest | db/server.go:706-757 | whatever the two tables hold, the cleartext is the XOR of everything written to either, the list is its nonzero slots, and both tables keep their content; if they hold an honest batch the cleartext is that batch |
| EndToEnd.BuildUpload | client/client.go:103-150 | the client's three messages together form an honest upload of the plaintext |
| EndToEnd.SubmitMessage | db/server.go:570-641 | one honest upload passes every check, and afterwards both servers hold the batch with it added |
| EndToEnd.SubmitBatch | db/server.go:570-641 | whatever honest batches the servers hold, every message of one more batch passes every check and is added on both |
| EndToEnd.Merge | db/server.go:706-757 | a merge publishes exactly the nonzero messages the servers hold, at their global rows and columns, if no two aim at one slot |
| EndToEnd.PublishBatch | db/server.go:706-757 | the two together, from empty servers |
| EndToEnd.TwoEpochs | db/server.go:706-757 | of two merges on the same servers, with a batch sent before each, the second reveals both batches and the XOR of the two cleartexts is the second batch |
| Queue.MemoryQueue.Enqueue | db/ingestion_queue.go:74-102 | refuses nonpositive epoch ids and uuids, and otherwise appends under a fresh id |
| Queue.MemoryQueue.ReceiveBatch | db/ingestion_queue.go:104-145 | refuses a nonpositive maximum, waits on an empty queue, and otherwise hands out the oldest waiting messages, each behind a fresh receipt |
| Queue.ReceiveInOrder | db/ingestion_queue.go:104-145 | a receive hands out the first waiting messages in their order, each with one more attempt and under the next receipt, and leaves every other message as it was |
| Queue.EnqueueAndAck | db/ingestion_queue.go:74-160 | what an accepted message adds and what an acknowledged receipt takes away, field by field |
| Queue.MemoryQueue.Ack | db/ingestion_queue.go:147-160 | forgets the message behind a receipt in flight and refuses any other receipt |
| Queue.MemoryQueue.GetStats | db/ingestion_queue.go:162-169 | both counts are zero exactly if the queue holds no message at all |
| Queue.DrainedIsEmpty | db/server.go:244-246 | nothing waiting and nothing in flight means no message is left |
| Queue.DeliveryValid | db/ingestion_queue.go:104-145 | a delivery keeps every message either waiting or behind exactly one receipt |
| Queue.RedeliveryValid | db/ingestion_sqs.go:197-236 | a redelivery keeps every message either waiting or behind exactly one receipt |
| Queue.RedeliverAndDelete | db/ingestion_sqs.go:197-249 | a redelivered message goes to the end of the waiting ones; a deleted one is neither stored, nor waiting, nor behind a receipt; all others stay in order |
| Queue.DeleteValid | db/ingestion_sqs.go:238-249 | deleting a message by an old receipt does too |
| Ledger.MemoryLedger.BeginProcessing | db/completed_upload_ledger.go:94-144 | leases exactly if the record of this replica, shard, epoch and uuid is neither committed nor held by an unexpired attempt |
| Ledger.MemoryLedger.CompleteProcessing | db/completed_upload_ledger.go:146-184 | commits for the current attempt, succeeds for anyone once committed, and refuses the rest |
| Ledger.BeginByIdentity | db/completed_upload_ledger.go:60-144 | the answer of a begin and the record it writes, by the record stored for exactly this replica, an unset one read as the active, shard, epoch and uuid; no record of any other quadruple changes |
| Ledger.CompleteByIdentity | db/completed_upload_ledger.go:146-184 | the same for a completion |
| Ledger.CompletionCommits | db/completed_upload_ledger.go:146-184 | a completion that reports success leaves the key committed |
| Ledger.SupersededChangesNothing | db/completed_upload_ledger.go:171-176 | a superseded attempt's completion changes no record, and succeeds exactly if the key is committed |
| Ledger.CommitsAreForever | db/completed_upload_ledger.go:94-184 | neither a begin nor a completion undoes a commit |
| LeaderControl.LeaderRuntime.RunStartMergeIfDrained | db/server.go:45-62 | a closing epoch without sessions and messages starts to merge and answers every waiter, the first one with the task to run it; anything else stays |
| LeaderControl.LeaderRuntime.RunStartEpoch | db/server.go:66-107 | refuses nonpositive durations and running epochs, and otherwise starts the named or next epoch |
| LeaderControl.LeaderRuntime.RunUpload1 | db/server.go:130-169 | admits a session only in an active epoch, for a row of the table, under an assigned or random identity |
| LeaderControl.LeaderRuntime.RunUpload2 | db/server.go:170-179 | stores the second block of a session with matching uuid and hash key |
| LeaderControl.LeaderRuntime.RunUpload3 | db/server.go:180-198 | queues the completed session under the current epoch and forgets it; a refusal of the queue keeps it |
| LeaderControl.LeaderRuntime.RunBeginMerge | db/server.go:199-226 | waits while sessions are open, merges at once without them, and reports a merge that runs or ran |
| LeaderControl.LeaderRuntime.RunCompleteMerge | db/server.go:227-236 | completes the epoch only if the merge succeeded |
| LeaderControl.LeaderRuntime.RunTakeAccepted | db/server.go:237-243 | removes a session and checks whether the merge can start |
| LeaderControl.LeaderRuntime.RunAbortEpoch | db/server.go:253-264 | answers every waiter and forgets the epoch, keeping the sessions |
| ControlLaws.DrainLaw | db/server.go:45-62 | field by field: exactly a closing epoch without sessions and messages starts to merge |
| ControlLaws.StartLaw | db/server.go:66-107 | field by field: an epoch starts exactly with a positive duration and none under way, under the named id or the one after the last |
| ControlLaws.AdmissionLaw | db/server.go:130-169 | field by field: a session is admitted exactly in an active epoch, for a row of the table, under an id that is not taken |
| ControlLaws.SecondBlockLaw | db/server.go:170-179 | field by field: the second block becomes that of the open session with its hash key |
| ControlLaws.ThirdBlockLaw | db/server.go:180-198 | field by field: one message with the session's blocks, its local and global row and the epoch's id is queued, and the session is over |
| ControlLaws.MergeCallLaw | db/server.go:199-226 | field by field: what a merge call answers and changes in each state of the epoch |
| ControlLaws.ReportLaw | db/server.go:227-236 | field by field: only a successful report completes the epoch |
| ControlLaws.TakeLaw | db/server.go:237-243 | field by field: a taken session is handed over, and the merge starts if it was the last one of a drained closing epoch |
| ControlLaws.AbortLaw | db/server.go:253-264 | field by field: exactly the active or closing epoch of that id is aborted, every waiter is told not to run |
| IngestionWorkers.StepKeeps | db/server.go:36-271 | every step of loop, workers, callers, queue and ledger keeps the whole invariant |
| IngestionLaws.CommandLaw | db/server.go:36-271 | a client's command is always possible and leaves the loop, the queue and the callers as the command's outcome says, workers and ledger as they were |
| IngestionLaws.LoopLaw | db/server.go:199-226 | a first merge call waits unless it is answered at once; a notification asks for the merge and the worker goes on |
| IngestionLaws.CallerLaw | db/server.go:968-999 | exactly a caller that was told to run can lock the table, exactly while nobody publishes and no worker is in a job; its report carries its merge's result |
| IngestionLaws.LockLaw | db/server.go:508-568 | a job can start exactly on an unfinished batch while nobody publishes, with the batch's first item |
| IngestionLaws.BeginLaw | db/server.go:508-568 | the ledger's answer for the item decides whether the worker prepares, acknowledges or drops it |
| IngestionLaws.JobLaw | db/server.go:508-568 | a worker prepares, commits and completes one item under one lease, in that order |
| IngestionLaws.CompletionLaw | db/server.go:508-568 | the item is acknowledged exactly if the completion succeeded |
| IngestionLaws.AckLaw | db/server.go:508-568 | what an acknowledgement with a current and with an outdated receipt does, and when the latter still deletes |
| IngestionLaws.ReceiveLaw | db/server.go:493-506 | a receive takes as many of the first waiting messages as asked for, if there are that many |
| IngestionLaws.NeverStuck | db/server.go:508-568 | a worker always has a step that is not a failure, exactly unless it waits for a message or for a publication to end |
| IngestionRuns.RunKeepsInvariant | db/server.go:36-271 | so every state of every run has it |
| IngestionRuns.DrainedMergeIsCommitted | db/server.go:45-56 | when an epoch that went through Closing merges, the queue is empty, and until the next epoch starts no upload is added, every upload ever queued is committed, and nobody publishes beside a job |
| IngestionRuns.MergingFreezesUploads | db/server.go:180-198 | from the start of a merge to the next epoch nothing is queued |
| IngestionRuns.CommittedExceptTheQueue | db/server.go:508-568 | in every state with the invariant, all uploads are committed exactly if those still in the queue are |
| CommitHistory.CommittedWasPrepared | db/server.go:508-568 | in every run, whenever an upload counts as committed, one worker prepared, then committed, then completed an item of the same shard, epoch and uuid before |
| Wakeup.NoLostWakeup | db/server.go:483-490 | in every run a closing epoch has an open session or a stored message, or some worker is about to notify the loop |
| Wakeup.WakeupStartsTheMerge | db/server.go:45-62 | and once nothing is left, that worker's next step is possible, starts the merge and answers every waiter |
| DirectMerge.DirectMergeStaysCommitted | db/server.go:223-226 | if the queue was drained at a direct call, or its content committed, every upload is committed in every state from then until the next epoch |
| DirectMerge.DirectMergeIsSafeIff | db/server.go:223-226 | every publish of the merge, over all continuations up to the next epoch, is of committed uploads only exactly if the queue's content was committed at the call |
| DirectMerge.DirectMergeCanPublishUncommitted | db/server.go:223-226 | a run of six steps in which the merge publishes without its epoch's only upload |
| IngestionRuns.EachMergeHasOneRunner | db/server.go:45-62 | every entry to Merging tells exactly one caller to run the merge, and no other step tells anyone |
| IngestionRuns.ReportFindsItsMerge | db/server.go:968-999 | a runner's report finds its own epoch still merging, without sessions |
| IngestionRuns.WaitersAndRunners | db/server.go:199-236 | callers wait exactly while the epoch closes, nobody is answered twice, at most one runs, and no session is open while merging or completed |
| IngestionRuns.QueuedHappened | db/server.go:384-397 | every queued upload consists of the blocks of one session that a first message of the run admitted and a third message completed |
| IngestionRuns.UploadsCarryTheirEpoch | db/server.go:130-198 | its blocks agree on uuid, hash key and row, and without an abort in between it carries the id of the epoch that admitted it |
| IngestionRuns.TakenOverOnlyAfterExpiry | db/completed_upload_ledger.go:118-144 | a worker leases an upload that another worker holds a lease on only after that lease expired, and under a later attempt |
| IngestionRuns.TakenOverCompletionIsHarmless | db/completed_upload_ledger.go:146-184 | the completion of an attempt that was taken over changes no record and reaches the acknowledgement only if the upload is committed |
| Redelivery.RedeliveryGivesTwoAttempts | db/ingestion_sqs.go:197-236 | a run in which one upload, queued once, is leased to two workers and only the later lease has not expired |
| IngestionRuns.AckedOnlyIfCommitted | db/server.go:508-568 | under redeliveries and old receipts too, a message leaves the queue only when its upload is committed |
| IngestionRuns.CommittedIsNeverPreparedAgain | db/server.go:508-568 | every begin after the commit, of a redelivered message or of a reused uuid, goes straight to the acknowledgement and changes no record |
| IngestionRuns.OneUnexpiredAttempt | db/completed_upload_ledger.go:118-144 | of all leases on one upload in workers' hands at most one has not expired |
| DynamoLedger.StepKeeps | db/completed_upload_ledger_dynamodb.go:108-234 | every read of any version, conditional update and re-read, working or failing, with any positive time to live, keeps the invariant and every version written |
| DynamoLedger.AccessLaw | db/completed_upload_ledger_dynamodb.go:108-234 | field by field: what each read, conditional update and re-read answers and writes for every item it can meet |
| DynamoLedger.LinearizesToTheSimpleLedger | db/completed_upload_ledger_dynamodb.go:108-234 | under every interleaving, whatever the reads see, an answered update gets the memory ledger's answer for the current item, with its effect; an answered read gets its answer for the version seen, exactly unless it is a re-read that would now be accepted, which takes a read older than the refusal or a time to live under a millisecond; every other access writes nothing |
| DynamoLedger.EmptyOnlyFromAnOldRead | db/completed_upload_ledger_dynamodb.go:168-178 | a begin succeeds with neither a lease nor a commit exactly if its re-read sees an expired processing item, and only if that version is older than the refusal |
| DynamoLimits.OldReadBeginsEmpty | db/completed_upload_ledger_dynamodb.go:168-178 | a run in which it does |
| DynamoLedger.AttemptsRise | db/completed_upload_ledger_dynamodb.go:131-166 | a later attempt starts no earlier than the expiry of any before, so names and expiries strictly rise from times to live of a millisecond on |
| DynamoLedger.SharedAttemptIsShort | db/completed_upload_ledger_dynamodb.go:131-142 | two clients hold one attempt only if its time to live ended within its own millisecond |
| DynamoLimits.ShortTimesShareAnAttempt | db/completed_upload_ledger_dynamodb.go:131-142 | a run in which two clients do |
| DynamoLedger.CommitIsForever | db/completed_upload_ledger_dynamodb.go:204-221 | once committed, nothing is written any more |
| DynamoLedger.DeadlineWithinAMillisecond | db/completed_upload_ledger_dynamodb.go:157 | the stored deadline is the memory ledger's cut to the millisecond |
| DynamoLedger.SameNameIff | db/completed_upload_ledger_dynamodb.go:131-142 | a claim can repeat a name exactly if the time to live ends within the same millisecond |
| FanOut.EveryPointerResolves | db/ingestion_payload.go:70-112 | every pointer ever sent resolves to a stored payload of its shard, epoch and uuid, whatever failed |
| FanOut.StandbyIsNeverBehind | db/ingestion_sqs.go:153-188 | whatever the active's queue was pointed to, the standby's queue was pointed to before |
| FanOut.FinishedCallSent | db/ingestion_sqs.go:153-188 | a call with a valid identity that ends without an error has put its pointer into the active's queue and, with a standby, into the standby's before; the payload behind it has the message's identity |
| FanOut.FinishedCallResolves | db/ingestion_payload.go:70-112 | and that pointer resolves to the very message, unless another one was stored under the same identity meanwhile |
| FanOut.ResolvesToTheLast | db/ingestion_payload.go:70-112 | in every run a pointer resolves to the last payload stored under its shard, epoch and uuid, so to its call's message exactly if that is the last one |
| FanOut.AnotherPayloadReplaces | db/ingestion_payload.go:70-112 | a run of five steps in which a call ends without an error and its pointer resolves to another upload of the same identity |
| FanOut.InvalidCallSendsNothing | db/ingestion_sqs.go:153-188 | a call with an invalid identity stores and sends nothing |
| LeaseSafety.StepKeeps | coordinator/coordinator_lease.go:60-152 | every step of any number of overlapping calls, with updates lost, landed or landing late, keeps token ownership and cached leases sound |
| LeadershipLaws.RenewLaw | coordinator/coordinator_lease.go:103-111 | field by field: an undisturbed renewal succeeds exactly if the store has the holder's unexpired lease under its cached token, then leads, and otherwise leaves a leader stale |
| LeadershipLaws.GivesWayLaw | coordinator/coordinator_lease.go:130-144 | field by field: an undisturbed acquire gives way to another holder's unexpired lease |
| LeadershipLaws.AcquireLaw | controlstore/dynamodb.go:152-195 | field by field: otherwise it leads under a new lease, with the same token for its own unexpired lease and the next one else |
| LeadershipLaws.RefusedLaw | coordinator/coordinator_lease.go:103-152 | field by field: which token and clock a renewal uses, and what a refused update does to a renewal, a reclaim and a claim |
| LeadershipLaws.RoleLaw | coordinator/coordinator_lease.go:60-101 | whatever overlaps, nobody who leads or is stale becomes passive |
| LeaseSafety.TokensNeverGoBack | controlstore/dynamodb.go:152-195 | fencing tokens never go backwards, in the store or in a cache |
| LeaseSafety.TokensHaveOneHolder | controlstore/dynamodb.go:152-226 | two coordinators never cache one token |
| LeaseExclusion.BoundKeptIff | controlstore/dynamodb.go:197-226 | a step keeps all granted leases within the stored expiry exactly if it does not move that expiry back |
| LeaseExclusion.LeaseSafetyHolds | coordinator/coordinator_lease.go:60-152 | in runs without such a step, an unexpired cached lease means the store names that holder and token, and there is at most one |
| LeaseExclusion.SerialCallsAreSafe | coordinator/coordinator_lease.go:103-152 | coordinators that never overlap their own calls, with no update that outlives its call, never take such a step |
| LeaseOverlap.LandedOutlivesIff | controlstore/dynamodb.go:197-226 | a landing renewal leaves its holder's cached lease outliving the stored one exactly if the cached one is unexpired and expires later than the renewal |
| LeaseOverlap.LoweringMakesTwoLeaders | coordinator/coordinator_lease.go:60-152 | from any state with the invariant, one step that moves back the expiry of a lease its holder has cached can be continued to two unexpired leaders |
| LeaseOverlap.OutlivingMakesTwoLeaders | controlstore/dynamodb.go:152-195 | once a cached lease outlives the stored one, any idle coordinator can come to lead beside it |
| LeaseOverlap.OverlappingRenewalsMakeTwoLeaders | coordinator/coordinator_lease.go:103-111 | a run of two overlapping renewals that ends with two unexpired leaders |
| LeaseOverlap.LateRenewalMakesTwoLeaders | coordinator/coordinator_lease.go:103-111 | a run with one call at a time, in which a renewal that got no reply lands after the next one, that ends with two unexpired leaders |
| MemoryLease.MemoryLeaseStore.AcquireLease | controlstore/memory.go:38-62 | refuses, and changes nothing, exactly for a bad time to live or another holder's unexpired lease; otherwise the caller's lease expires a time to live from now, under the same token if it extends its own and the next one else |
| MemoryLease.MemoryLeaseStore.RenewLease | controlstore/memory.go:64-78 | extends exactly the unexpired lease of this holder and token |
| MemoryLease.CallLaw | controlstore/memory.go:38-78 | field by field: when a call is refused, and whose lease with which token and expiry it otherwise returns |
| MemoryLease.TokensHaveOneHolder | controlstore/memory.go:38-78 | over any calls, whatever the clocks do, tokens never fall and no token is granted to two holders |
| MemoryLease.UnexpiredGrantsAgree | controlstore/memory.go:38-78 | over calls with a clock that does not fall, none of which shortens a lease, two unexpired granted leases have one holder, the stored one |
| MemoryLease.SteadyTimesNeverShorten | controlstore/memory.go:38-78 | calls that always ask for the same time to live never shorten one |
| MemoryLease.ShorteningLetsAnotherIn | controlstore/memory.go:64-78 | from any state, after a call that shortens a lease another holder can acquire before the lease granted earlier expires |
| MemoryLease.StoresAgree | controlstore/dynamodb.go:152-226 | the two stores accept the same renewals, claims and acquires on whole milliseconds, and otherwise differ only within the last one |
| ShardMap.ValidMapIff | coordinator/coordinator.go:221-263 | distinct ids, complete shards and distinct starts at the table boundaries, in any list order, is the same as listing the tables one after the other once sorted |
| ShardMap.CheckSorted | coordinator/coordinator.go:234-260 | the pass over the sorted copy accepts exactly the lists in order with distinct ids |
| ShardMap.ValidateShardMap | coordinator/coordinator.go:221-263 | accepts exactly the valid maps and returns them sorted |
| ShardMap.RouteShard | coordinator/shard_config.go:207-214 | finds the first listed shard that covers the row |
| ShardMap.RoutingIsAPartition | coordinator/shard_config.go:207-214 | a valid map in any order sends every row below its height to exactly one shard, the one whose table holds it, and refuses all others |
| ShardMap.LocalRowsAgree | coordinator/coordinator.go:562-563 | the coordinator's local row is the row modulo the table height that the client prepared for |
| ShardConfigs.PromotedIff | coordinator/shard_promotion.go:108-141 | a promotion is accepted exactly for a shard with a complete standby pair, keeps the topology and raises the version by one |
| ShardConfigs.PromotionByField | coordinator/shard_promotion.go:108-141 | field by field: the old standby pair becomes the active one and the old active one the standby, leader for leader; no other shard and no other field but the version changes |
| ShardConfigs.PromotionUndoesItself | coordinator/shard_promotion.go:108-141 | promoting the same shard twice restores the shards |
| ShardConfigs.PromotionKeepsRouting | coordinator/shard_promotion.go:108-141 | every row goes to the same shard before and after |
| ShardConfigs.PromotionStaysContained | coordinator/shard_config.go:160-205 | a promoted configuration still matches the inventory |
| ShardConfigs.BuildShardConfigFromInventory | coordinator/shard_config.go:216-239 | builds the first shards by id at the rows of their places, or refuses |
| ShardConfigs.BuildSucceedsIff | coordinator/shard_config.go:216-239 | from a valid inventory exactly the counts from one to its size can be built |
| ShardConfigs.BuiltTakesSmallest | coordinator/shard_config.go:216-239 | it consists of exactly the inventory's shards with the smallest ids, in that order, with their own pairs, at the rows of their places |
| ShardConfigs.ValidateShardInventoryContainsConfig | coordinator/shard_config.go:160-178 | accepts exactly the valid configurations whose shards are the inventory's, as listed or swapped |
| ShardConfigs.ContainedIff | coordinator/shard_config.go:160-205 | field by field: that is, valid, and every shard is one of the inventory's with its pairs as listed or exchanged |
| ShardConfigs.ScalingContainedIff | coordinator/shard_config.go:160-239 | a scaled configuration passes that check exactly if the shards it takes sit at the rows of their places |
| ShardConfigs.ScalingTakesAPrefix | coordinator/shard_config.go:216-239 | with ids ordered like rows, scaling takes a prefix of the inventory with the inventory's own pairs |
| ShardConfigs.ScalingUndoesPromotion | coordinator/shard_config.go:216-239 | scaling a promoted configuration to any count that keeps the shard gives the shard its old active pair back |
| ShardConfigs.MisorderedFailsTheCheck | coordinator/shard_config.go:160-239 | an inventory of two shards from which one shard can be built that the check then refuses |
| ControlStore.RunsBetweenStarts | controlstore/epoch_cycle.go:35-60 | the cycle leaves a state that allows a start only through a running epoch |
| ControlStore.MemoryControlStore.RunPutShardConfig | controlstore/memory.go:154-167 | takes a valid configuration that is not older |
| ControlStore.MemoryControlStore.RunPutEpochShardConfig | controlstore/memory.go:180-199 | writes a snapshot once and afterwards accepts only the same one |
| ControlStore.MemoryControlStore.RunStartEpoch | controlstore/memory.go:89-102 | replaces the epoch and writes the version it is given |
| ControlStore.MemoryControlStore.RunCompleteEpoch | controlstore/memory.go:104-113 | completes only the current epoch |
| ControlStore.MemoryControlStore.RunPutScalingRecommendation | controlstore/memory.go:201-225 | one recommendation per epoch; the latest never goes back to an earlier epoch |
| ControlStore.MemoryControlStore.RunPutEpochCycleTransition | controlstore/memory.go:255-273 | moves the cycle only from the expected state and along a valid transition |
| StoreLaws.LatestIsNewest | controlstore/memory.go:201-225 | over any writes in any order, the stored recommendation of an epoch is the first one made for it, and the latest is the one stored for the greatest epoch |
| StoreLaws.VersionFallsIff | controlstore/memory.go:89-167 | a write moves the configuration's version back exactly if it is an accepted start of the in-memory store under a lower version |
| StoreLaws.ScalingFollowsARecommendation | controlstore/epoch_cycle.go:35-60 | between a running epoch and an applied or skipped scaling the cycle was ready and then scaling |
| StoreLaws.EveryStateCanStartAgain | controlstore/epoch_cycle.go:35-60 | from every state the cycle can move to one that allows the next start |
| StoreLaws.ConfigLaw | controlstore/memory.go:154-167 | field by field: which configuration is taken |
| StoreLaws.SnapshotLaw | controlstore/memory.go:180-199 | field by field: which snapshot is taken |
| StoreLaws.EpochLaw | controlstore/memory.go:89-102 | field by field: which epoch starts, and what that does to the configuration's version in either store |
| StoreLaws.CompletionLaw | controlstore/memory.go:104-113 | field by field: which epoch is completed |
| StoreLaws.RecommendationLaw | controlstore/memory.go:201-225 | field by field: which recommendation is taken, and when it becomes the latest |
| StoreLaws.CycleLaw | controlstore/memory.go:255-273 | field by field: when the cycle moves |
| EpochTopology.StepSound | coordinator/coordinator.go:685-978 | every call, stopped after any of its writes, keeps the store sound, adds snapshots only, and changes the topology only while no epoch runs |
| EpochTopology.SnapshotsAreImmutable | controlstore/memory.go:180-199 | a snapshot never changes over any run |
| EpochTopology.RunningEpochMatchesItsSnapshot | coordinator/coordinator.go:685-769 | whenever an epoch runs its snapshot is stored, the current ids and row ranges are the snapshot's, and every row goes where the snapshot sends it |
| EpochTopology.TopologyIsFrozen | coordinator/coordinator.go:685-769 | whenever the same epoch runs, ids and row ranges are the same and every row goes to the same shard, through promotions, applies, skips and restarts |
| EpochTopology.VersionsRiseByOne | coordinator/scaling_apply.go:42-95 | configurations stay valid, each change raises the version by one, and the topology changes only between epochs |
| EpochTopology.EveryConfigSurvivesRestart | coordinator/shard_config.go:95-117 | with ids ordered like rows, every configuration a run reaches passes the inventory check at restart |
| EpochTopology.SeedSurvivesRestartIff | coordinator/shard_config.go:95-117 | a seeded configuration passes that check exactly if the shards it takes sit at the rows of their places |
| EpochTopology.MisorderedCannotRestart | coordinator/shard_config.go:95-117 | a run of one call after which a coordinator cannot restart |
| TopologyLaws.ProposalIff | coordinator/scaling_apply.go:42-111 | there is a proposal exactly for a fresh grow or shrink to another count that the inventory has, while no epoch is busy; it has as many shards as recommended, those with the smallest ids, under the next version |
| TopologyLaws.StartLaw | coordinator/coordinator.go:685-769 | field by field: exactly when an uninterrupted start goes through, and what it leaves |
| TopologyLaws.CompleteLaw | coordinator/coordinator.go:784-821 | field by field: an uninterrupted completion records the recommendation and leaves the cycle ready, skipped or failed |
| TopologyLaws.ApplyLaw | coordinator/coordinator.go:893-939 | field by field: exactly when an uninterrupted apply writes the proposal, fails the cycle or does nothing |
| TopologyLaws.SkipLaw | coordinator/coordinator.go:941-976 | field by field: exactly when a skip moves the cycle |
| TopologyLaws.PromoteLaw | coordinator/shard_promotion.go:108-156 | field by field: exactly when a promotion is stored, with the pairs of one shard exchanged |
| TopologyLaws.BootLaw | coordinator/shard_config.go:95-117 | field by field: exactly when a coordinator comes up, and what it seeds |
| TopologyLaws.StartCutLaw | coordinator/coordinator.go:745-763 | field by field: what a start leaves that stops after each of its writes |
| TopologyLaws.CompleteCutLaw | coordinator/coordinator.go:796-821 | the same for a completion |
| TopologyLaws.ApplyCutLaw | coordinator/coordinator.go:893-976 | the same for an apply and a skip |
| Autoscaler.ApplyScalingRecommendation | coordinator/coordinator.go:893-939 | a dry run changes nothing; an apply writes the proposal exactly if there is one, the cycle allows it and the shards connect |
| Autoscaler.EvaluateOnce | autoscaler/autoscaler.go:42-166 | without the apply flag nothing changes; with it a ready recommendation ends applied, skipped or failed, and which one is decided exactly |
| Autoscaler.SettledIff | autoscaler/autoscaler.go:42-166 | an actionable recommendation is applied exactly if it is applicable and the shards connect, then to as many shards as recommended, and fails the cycle otherwise |
| AutoPromotion.AutoPromoter.EvaluateShard | coordinator/auto_promotion.go:156-190 | counts consecutive misses, remembers the last reachable active, and is eligible only past threshold and cooldown with a caught-up standby |
| AutoPromotion.AutoPromoter.RunCheck | coordinator/auto_promotion.go:111-154 | evaluates the shards in order up to the first eligible one |
| AutoPromotion.EligibleIff | coordinator/auto_promotion.go:156-190 | a shard becomes eligible exactly after as many misses in a row as the threshold, with a ready standby that committed as much as the active last showed, a cooldown after its last promotion |
| AutoPromotion.CheckPromotesTheFirst | coordinator/auto_promotion.go:111-154 | a check promotes exactly the first eligible shard, counts what it saw of those before and does not look at those after |
| AutoPromotion.EveryPromotionIsJustified | coordinator/auto_promotion.go:111-281 | in every run each promotion follows enough misses since the last sight or promotion, hands over to a standby that committed as much as the active last showed, and comes a cooldown after the one before |
| AutoPromotion.PromotionsAreACooldownApart | coordinator/auto_promotion.go:177-183 | in a log whose promotions are justified, any two are at least a cooldown apart |
| AutoPromotion.RunPromotionsAreACooldownApart | coordinator/auto_promotion.go:111-281 | so in every run any two promotions of one shard are at least a cooldown apart |
| Scaling.ActionsMatchTheirDirection | coordinator/scaling.go:91-163 | grow raises within the multiplier and the maximum, keep keeps, shrink respects the minimum, and a shrink raises the count exactly if it started below the minimum |
| Scaling.RecommendedCount | coordinator/scaling.go:91-163 | the recommended count and action for all inputs, without quotients: grow, shrink or keep by the rows of the shards against the accepted uploads |
| Scaling.ShrinkCanRaise | coordinator/scaling.go:143-159 | an input on which a shrink raises the count |
| Scaling.HighDensityGrows | coordinator/scaling.go:126-141 | after n epochs of high demand the count is the start times the multiplier to the n, capped at the maximum |
| Scaling.HighDensityConverges | coordinator/scaling.go:126-141 | the maximum is reached exactly once that power covers it |
| Scaling.LowDensityShrinks | coordinator/scaling.go:143-159 | after n epochs of low demand the count is the ceiling of the start divided by the multiplier to the n, floored at the minimum |
| Scaling.LowDensityConverges | coordinator/scaling.go:143-159 | the minimum is reached exactly once that power covers it |

## Left out

- Row expansion in goroutines: `TakeToken`, `XorIntoTaken` and `ReturnToken` allow any rows in flight at once, while `ExpandRow` and `ProcessQuery` run one row after the other; which free token comes is arbitrary.
- The randomness of keys, shares, masks and points: the model draws arbitrary values, and says nothing about secrecy or anonymity.
- The sealed boxes around queries and their encoding: a decrypted query is taken to be the encrypted one.
- The primality of the modulus constant is a hypothesis of soundness.
- The commit message to the second server and the pending map: they only count.
- Table.SubmitPrepares: a failing call of the fan-out, which ends the attempt, is a failed worker step of the ingestion model.
- EndToEnd.SubmitBatch: the servers hold honest uploads only; Reveal.SendMergeRequest is about any content.
- Queue.MemoryQueue.Enqueue: ids given by the caller, and so duplicates, and enqueue times.
- The order in which the cloud queue delivers: a redelivered message goes to the end of the waiting list.
- LeaderControl.LeaderRuntime.RunStartEpoch: the end time and the timer of the epoch.
- LeaderControl.LeaderRuntime.RunCompleteMerge: the stored path of the last result.
- DynamoLedger.StepKeeps: the identity checks before the first read are those of the memory ledger and are not repeated.
- LeaseSafety.StepKeeps: a restarted coordinator under the same holder name is a fresh one.
- MemoryLease.MemoryLeaseStore.AcquireLease: the refusal of an empty holder name.
- EpochTopology.TopologyIsFrozen: one coordinator call is one step, with its writes cut off at any point; two calls do not interleave their writes, and the shard leaders' own epochs, their aborts and the session store are not part of it.
- ControlStore.MemoryControlStore.RunPutEpochCycleTransition: keeps the state of the cycle record, not its epoch, version, reason and times.
- ControlStore.MemoryControlStore.RunPutScalingRecommendation: the validation of the record's own fields.
- Hashing of configurations and recommendations: two records are the same if they are equal.
- The manual promotion's readiness texts, status replies, diagnostics and statistics.
- Scaling.ActionsMatchTheirDirection: densities and ceilings are exact quotients where the code rounds to floating point.
- Autoscaler.ApplyScalingRecommendation: the leadership check and errors of the store.
- Autoscaler.EvaluateOnce: failed reads and timeouts, which end the evaluation.
- AutoPromotion.AutoPromoter.RunCheck: a check without the lease changes only the status text and is no step here.
- FanOut.EveryPointerResolves: payloads are never deleted, and JSON decoding undoes encoding.
- Liveness: a failed job or merge can stall an epoch, and nothing here says otherwise; `Wakeup` says that a drained one is not stalled for want of a notification.
- TLS, dialing, flags, the client's retries, cloud transport, evaluation scripts and plots.
