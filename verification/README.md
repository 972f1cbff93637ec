# A verified model of the restart-survivable KV tier and of the worker patch

This Dafny project models the code of a long-context serving recipe and proves what it promises, for
all inputs and all runs. `dafny verify dfyconfig.toml` checks everything. Automatic induction is switched
off throughout: every induction is written out.

**The persistent KV tier** (`tools/kv_persist_policy.py`). An LRU index maps block hashes to slots of an
NVMe file; a manager hands slots out from a bump counter and a free list; a saver thread writes the
index to a file every few seconds, reading the bump counter, the free list and the index one after the
other; a restart rebuilds index and allocator from that file.

- `KvIndex`, `KvRestore`, `KvFingerprint`: the ordered index, hex keys, the payload, `_restore` with every
  place it can raise, the string under the fingerprint.
- `KvSpec`: the two classes of the file, loop by loop, against those functions.
- `KvManager`: the allocator's steps, position by position, and the conservation of slots. `KvReplies`: what
  requests are answered, and that a hit is always a finished store.
- `KvMachine`: the whole tier as a step machine - scheduler thread, the load and the store of
  `self._dirty += 1` as separate steps, each read of the saver, each item its iteration visits, torn and
  complete temporary files, `os.replace`, exceptions, and a crash with restart at any point.
- `KvDurable`: what holds over every run with no condition on its restarts - index, counters, mutation
  count, file. `KvOwnership`: single ownership of slots, over every run whose restarts find an in-range
  file, stale or not. `KvContents`: bytes, as well, when no restarted file is stale. `KvSafety` and
  `KvRestart` have the facts about single steps and about a rebuild; `KvWitness` the runs that show both
  conditions of a safe restart are needed.
- `KvContinuity`, `KvRuns`, `KvCapacity`: what one clean save and restart preserves, what restarts cost in
  capacity, and that the step machine's uninterrupted save is that save.

**The worker** (`patches/gpu_worker_cachefix.py`): `WeightUpdate` (sessions with an exception possible at
every engine call), `PipelineSend` (communication handles), `SleepWake` (buffers across a level-2 sleep),
`GraphStartup` (warm-up, capture and in-place cleanup over buffer identities), `CompileRanges` and
`PhaseAccounting`.

**The tools**: `GarbleGate` with `Periods` (the text verdict of `tools/acceptance_gates.py`; the loop pattern
is settled with the Fine-Wilf theorem) and `DecodeWindows` (`tools/ctx_decode_bench.py`).

## What turned out not to hold as documented

- *Live slots are never handed out again* (lines 34-39 of the tier). True exactly when each restart finds an
  index file that is in range: no fresh slot was bumped between the saver's reads and then captured
  (`RestartOwnedIff`, `OnlyFreshSlotsEscape`; `OverlapAliases` is a run that violates it). Without a bump
  during a capture it holds in every run, stale restarts included (`QuietRunsAreOwned`), and once every
  slot has been bumped no capture can be out of range (`FullTierNeverOverlaps`).
- *Entries stored after the last snapshot are simply misses* (line 41). The new keys are; but if such a store
  reused a captured slot, the old key is a hit on the new bytes (`StaleHit`). After a restart every key has
  its own bytes exactly when every captured slot was left alone since the capture, or last stored to by
  the same key and completely (`RestartSafeIff`, `CapturedContent`).
- *Any failure while restoring degrades to a cold cache* (line 45). Only if the payload does not reach a bad
  value after the first insertion (`FailureIsColdIff`); a null free list does (`FailureNotCold`). The saver
  never writes such a payload (`FileIsOneEarlierCapture`, `RestartsNeverRaise`).
- *A fingerprint guards against a configuration change* (lines 42-44). The parts are joined with a bar, so the
  joined string identifies the configuration exactly when the user's tag, the model name and the data type
  contain no bar (`FingerprintIdentifiesIff`, `TagSpillsIntoModel`).
- *A step waits for the previous step's sends before its forward* (`patches/gpu_worker_cachefix.py`, lines
  1147-1150). Not for a send that raised between its device sends: its handles are never recorded
  (`SendDiscipline`, `CutSendReachesForward`).
- A main-model weight update can be loaded into the draft model: if resetting the engine's target raises
  while a draft session is abandoned, the next session does not repair it (`StrandedUpdateGoesAstray`).
- A finished main session resets LoRA once exactly when that reset does not raise first: the session is already
  inactive then, so it cannot be finished again (`LoraOncePerSessionIff`, `LoraResetMissed`).
- Repeated restarts from the same file do not lose slots again; what is lost is the sum over the saves that
  the lives were started from (`CapacityOverRestarts`).

The source's own account of graph start-up (line 796: a resize after capture frees what the graphs point at)
is confirmed, and made exact: the new order keeps every warm-up before the first capture, so that only a
resize between two captures can still leave a graph dangling (`CompileOrWarmUp`, `ResizeBetweenCaptures`).

## Assumptions

- The vLLM manager, LRU policy and base tier are not part of this model's source. Assumed of them: the index is an
  insertion-ordered dictionary; a block is not ready at reference count -1, ready at 0 and above; fresh slots
  are used before the free list, which is popped from its end; eviction takes the first unpinned ready item
  and deletes it without the mutation hook; a key is inserted only when it is not in the index; one scheduler
  thread makes all changes; the two counters move with the index. The safety theorems allow any eviction choice.
- A store destroys a slot's old bytes when the slot is inserted; equal keys mean equal bytes.
- Slot ids name the same bytes in every configuration a file is kept across: the slot size does not change
  between a change of configuration and the change back.
- `os.replace` is atomic and what it names is complete; SHA-256 of the joined fingerprint is injective;
  JSON decodes what it encoded. A size or order change under the saver's iteration raises.
- Clocks are monotone where marks are recorded; times and thresholds are exact.

## Model

| member | source | states |
|---|---|---|
| KvIndex.PutKeepsPlaces | tools/kv_persist_policy.py:84-87 | assigning to an existing key changes that item alone and moves none, a new key goes last, keys stay distinct |
| KvIndex.HexRoundTrip | tools/kv_persist_policy.py:188-218 | every key survives `hex` followed by `fromhex` |
| KvIndex.ToHexDigits | tools/kv_persist_policy.py:218 | two lower-case digits for every byte, the high one first |
| KvIndex.FromHexSound | tools/kv_persist_policy.py:188 | what decodes is the hex form of its value, up to whitespace and letter case |
| KvIndex.FromHexIff | tools/kv_persist_policy.py:188 | a text without whitespace decodes exactly when it is an even number of hex digits |
| KvIndex.ReadyPairsMember | tools/kv_persist_policy.py:106-108 | the snapshot lists exactly the ready items with their slots |
| KvIndex.ReadyPairsInOrder | tools/kv_persist_policy.py:106-108 | and lists them in the order of the dictionary |
| KvFingerprint.FingerprintIdentifiesIff | tools/kv_persist_policy.py:160-172 | among lists the code can build, the joined parts identify a configuration exactly when its three texts contain no bar |
| KvFingerprint.JoinOfEight | tools/kv_persist_policy.py:172 | the joined string, written out |
| KvFingerprint.TagSpillsIntoModel | tools/kv_persist_policy.py:160-172 | two configurations with one joined string, whatever the data type and the integers |
| KvRestore.RestoreOfSaved | tools/kv_persist_policy.py:174-196 | decoding undoes encoding for every capture; under another configuration nothing is touched |
| KvRestore.RestoreRaisesIff | tools/kv_persist_policy.py:174-196 | where a restore raises, for any file and any manager |
| KvRestore.RestoreLeaves | tools/kv_persist_policy.py:174-196 | what any restore that does not raise leaves in every field, or that it touched nothing |
| KvRestore.PutAllIs | tools/kv_persist_policy.py:95-104 | a repeated key ends on its last slot; every restored item is ready and unpinned |
| KvRestore.AbsentKeys | tools/kv_persist_policy.py:185-194 | what each absent key of the file counts as |
| KvRestore.FailureIsColdIff | tools/kv_persist_policy.py:45 | a raising restore leaves the manager cold exactly when no bad value follows the first mutation |
| KvRestore.FailureNotCold | tools/kv_persist_policy.py:188-193 | a free list that is null or holds a bad number leaves every captured slot live over a bump counter of zero |
| KvSpec.PersistentLRUCachePolicy.Insert | tools/kv_persist_policy.py:84-87 | new index and one more mutation |
| KvSpec.PersistentLRUCachePolicy.Remove | tools/kv_persist_policy.py:89-92 | the key is gone, every other item keeps its order, and a mutation is counted; or nothing changes when it is missing |
| KvSpec.PersistentLRUCachePolicy.RestoreEntries | tools/kv_persist_policy.py:95-104 | the index after the loop, partial when an int() raises, mutation count untouched |
| KvSpec.PersistentLRUCachePolicy.SnapshotEntries | tools/kv_persist_policy.py:106-108 | the ready pairs in order |
| KvSpec.PersistentNVMeOffloadingSpec.GetManager | tools/kv_persist_policy.py:114-133 | manager built once, restored into at each call, saver started unless the restore raised |
| KvSpec.PersistentNVMeOffloadingSpec.Restore | tools/kv_persist_policy.py:174-196 | outcome and every manager field, for every file content and every state before |
| KvSpec.PersistentNVMeOffloadingSpec.SaverPass | tools/kv_persist_policy.py:206-226 | one turn of the saver: the file holds the current state, or its old content if anything raised; the mutation count is zero either way |
| KvSpec.SaveCrashRestart | tools/kv_persist_policy.py:174-224 | save, crash and a new process give the settled manager, whatever slots the scheduler held |
| KvManager.PoolConserved | tools/kv_persist_policy.py:34-39 | no manager step creates or destroys a slot |
| KvManager.MgrOkKept | tools/kv_persist_policy.py:34-39 | every manager step keeps slots single-owned, keys distinct and both counters exact |
| KvManager.LiveSlotsOwned | tools/kv_persist_policy.py:34-39 | a live slot has no other live key, is not free and is below the bump counter |
| KvManager.RemovalKeepsOrder | tools/kv_persist_policy.py:89-92 | eviction and abort leave every other item in its order and hand the slot to the scheduler |
| KvManager.TouchKeepsOrder | tools/kv_persist_policy.py:95-108 | a touched item goes last, the others keep their order |
| KvManager.OtherItemsStay | tools/kv_persist_policy.py:84-87 | insertion appends; completion, pin and unpin change one reference count and nothing else |
| KvManager.FreeListIsStack | tools/kv_persist_policy.py:34-39 | free slots are taken from and given back to the end of the free list, fresh ones counted up |
| KvMachine.SchedulerRunsOn | tools/kv_persist_policy.py:206-224 | the scheduler is never held up by a save, except at the lock |
| KvMachine.AnythingCanFail | tools/kv_persist_policy.py:206-226 | a crash, an exception and a torn write are possible wherever the code allows them |
| KvMachine.RestartForgets | tools/kv_persist_policy.py:114-133 | a restart keeps the disk and nothing of the process |
| KvSafety.BackedKept | tools/kv_persist_policy.py:84-108 | every scheduler step keeps each ready item on its own completed bytes and each store in flight on its own slot |
| KvOwnership.CaptureOwned | tools/kv_persist_policy.py:212-218 | whatever ran between the saver's reads, the captured pairs have distinct keys and distinct slots below the live bump counter |
| KvContents.CaptureBacked | tools/kv_persist_policy.py:212-218 | and every captured pair has its completed bytes on disk |
| KvRestart.RebuiltAliasFreeIff | tools/kv_persist_policy.py:189-195 | the rebuilt allocator is alias-free exactly when every captured slot is below the captured counter |
| KvOwnership.RestartOwnedIff | tools/kv_persist_policy.py:34-39 | after a restart every slot has one owner exactly when the file was in range, stale or not |
| KvContents.RestartSafeIff | tools/kv_persist_policy.py:34-41 | after a restart every addressable key has its own bytes exactly when no captured slot was stored to again, except last by the same key and completely |
| KvOwnership.StepOwned | tools/kv_persist_policy.py:84-226 | single ownership survives every step of either thread and every restart from an in-range file |
| KvOwnership.EveryRunOwned | tools/kv_persist_policy.py:34-39 | over every run with any number of crashes and in-range restarts, stale ones included, no slot has two owners and no allocation returns a live slot |
| KvContents.EveryRunIsSound | tools/kv_persist_policy.py:32-45 | if besides no restarted file is stale, no lookup serves foreign bytes |
| KvOwnership.OnlyFreshSlotsEscape | tools/kv_persist_policy.py:191-218 | a capture is out of range exactly when a slot bumped since its first read was captured |
| KvOwnership.QuietRunsAreOwned | tools/kv_persist_policy.py:206-224 | without a bump during a capture every file is in range and no slot ever has two owners, through any restarts |
| KvContents.QuietRunsAreSound | tools/kv_persist_policy.py:206-224 | and then staleness is all that a restart can be unsafe for |
| KvOwnership.FullTierNeverOverlaps | tools/kv_persist_policy.py:216-218 | from a full tier with an idle saver, every later capture of the process is in range under every interleaving |
| KvDurable.NoLostMutation | tools/kv_persist_policy.py:84-226 | in every run: idle saver, good last attempt, count zero, no hook running mean that no hook has run since the capture, and index and file differ only by evictions and by items not ready then |
| KvDurable.CountersAgree | tools/kv_persist_policy.py:95-195 | in every run, after restarts of any kind, the evictable count is the number of unreferenced ready items and the pending count that of stores in flight |
| KvDurable.FileIsOneEarlierCapture | tools/kv_persist_policy.py:221-224 | at every point of every run the named file is absent or the one complete capture of the last replaced save |
| KvDurable.RestartsNeverRaise | tools/kv_persist_policy.py:174-196 | a restart at any point of any run never raises: cold and untouched, or the rebuild of the one capture on disk |
| KvDurable.RestoredExactly | tools/kv_persist_policy.py:40-41 | after a restart at any point of any run the addressable items are exactly the captured pairs; those were ready when read, come in the index's order, and include all that were ready when the read began |
| KvContents.CapturedContent | tools/kv_persist_policy.py:40-41 | after a capture, over any steps, crashes and restarts, a captured slot keeps its bytes exactly when it was not stored to again, or last by the same key and completely |
| KvContents.OneStoreAtATime | tools/kv_persist_policy.py:34-41 | while slots have one owner, a store in flight is the last one that claimed its slot |
| KvRuns.UninterruptedSave | tools/kv_persist_policy.py:206-224 | in the step machine a save nothing interrupts writes exactly the current state |
| KvWitness.OverlapAliases | tools/kv_persist_policy.py:216-218 | a run with a bump between the reads after which two keys own slot 1 |
| KvWitness.StaleHit | tools/kv_persist_policy.py:40-41 | a run after which a key is a hit on another key's bytes |
| KvContinuity.RestartSettles | tools/kv_persist_policy.py:95-218 | for every state, save and restart give the same order, slots, free list and counter with stores in flight dropped and loads released |
| KvContinuity.RestartExactIff | tools/kv_persist_policy.py:95-218 | the restarted manager equals the old one exactly when nothing was being stored or loaded |
| KvContinuity.RestartIsInvisible | tools/kv_persist_policy.py:95-218 | from a quiet state every later sequence of requests gets the same replies, slots and victims; what they are, the next rows say |
| KvReplies.LookupIff | tools/kv_persist_policy.py:40-41 | a lookup is a hit on a slot exactly when a completed item has that key and slot |
| KvReplies.StoreReply | tools/kv_persist_policy.py:34-39 | a known key is left alone; a fresh slot comes first, then the end of the free list |
| KvReplies.EvictReply | tools/kv_persist_policy.py:34-39 | with no slot left the least recent unheld item gives way, and only it |
| KvReplies.RefusedIff | tools/kv_persist_policy.py:34-39 | a store is refused exactly when there is no slot and no such item |
| KvReplies.ItemReply | tools/kv_persist_policy.py:95-108 | what finishing, loading and releasing do to an item, and to nothing else |
| KvReplies.RepliesTellLife | tools/kv_persist_policy.py:40-41 | over every request list from any sound manager, what the replies said about a key is what the index says |
| KvReplies.HitIffFinished | tools/kv_persist_policy.py:40-41 | a lookup is a hit exactly when a finish followed the last store of the key, with no eviction since, and on that store's slot |
| KvContinuity.StoreKeeps | tools/kv_persist_policy.py:34-39 | a store never gets a slot of a live key other than its victim |
| KvContinuity.ServeKeeps | tools/kv_persist_policy.py:34-39 | every request leaves slots single-owned, counters exact and no slot in between |
| KvContinuity.RestartCost | tools/kv_persist_policy.py:106-195 | a restart costs exactly the slots in flight at the save it restores |
| KvCapacity.SlotsBalance | tools/kv_persist_policy.py:190-195 | in every reachable state live, pending, free, held and lost slots add up to the bump counter |
| KvCapacity.ConsistentCaptureCost | tools/kv_persist_policy.py:106-195 | a capture of one manager state will have lost what was lost before plus what is in flight |
| KvCapacity.FileIsOneManagerState | tools/kv_persist_policy.py:206-224 | in every run without a manager step between the reads of a capture, the file holds one earlier manager state, recency order included |
| KvCapacity.RestartSettlesRuns | tools/kv_persist_policy.py:174-224 | and a restart at any point gives that state back, stores in flight dropped and loads released |
| KvCapacity.CapacityOverRestarts | tools/kv_persist_policy.py:106-195 | and the usable slots after any number of restarts are all slots minus what was in flight at the saves restored |
| WeightUpdate.InvKeptIff | patches/gpu_worker_cachefix.py:1385-1465 | a call keeps the session invariant exactly unless a raising reset strands a draft session |
| WeightUpdate.SessionsKeepInv | patches/gpu_worker_cachefix.py:1385-1465 | over every call sequence with exceptions anywhere: inactive points at the main model, active at the chosen one, every chunk went there, and LoRA resets fall short of finished main sessions by exactly those that raised without effect |
| WeightUpdate.LoraOncePerSessionIff | patches/gpu_worker_cachefix.py:1460-1465 | LoRA was reset once per finished main session exactly when no LoRA reset raised without effect |
| WeightUpdate.LoraResetMissed | patches/gpu_worker_cachefix.py:1460-1465 | two calls after which a finished main session has no LoRA reset and cannot be finished again |
| WeightUpdate.QuietResetNeverStrands | patches/gpu_worker_cachefix.py:1405-1407 | if resets do not raise nothing is ever stranded |
| WeightUpdate.ChunksDelivered | patches/gpu_worker_cachefix.py:1411-1446 | over every call sequence with exceptions anywhere: the chunks loaded are exactly this rank's own, of the sends that took effect in an open session, in order |
| WeightUpdate.StrandedUpdateGoesAstray | patches/gpu_worker_cachefix.py:1401-1409 | after a stranded draft session the main model's chunk is loaded into the draft model |
| WeightUpdate.Worker.StartWeightUpdate | patches/gpu_worker_cachefix.py:1385-1409 | new state and result, for every state and fault |
| WeightUpdate.Worker.UpdateWeights | patches/gpu_worker_cachefix.py:1411-1446 | new state and result, a rank list too short included |
| WeightUpdate.Worker.FinishWeightUpdate | patches/gpu_worker_cachefix.py:1448-1465 | new state and result, for every state and fault |
| PipelineSend.SendDiscipline | patches/gpu_worker_cachefix.py:1145-1234 | over every run with exceptions anywhere: forwards start with no send outstanding exactly when none starts after a send cut short, and the outstanding sends are those lost and the recorded ones |
| PipelineSend.EverySendIssued | patches/gpu_worker_cachefix.py:1188-1234 | over every run the device sends in the log are exactly those of the steps with tensors to pass on, each once and in order |
| PipelineSend.UncutRuns | patches/gpu_worker_cachefix.py:1145-1234 | when no wait loop and no send is cut short, the recorded handles are exactly the outstanding ones |
| PipelineSend.CutSendReachesForward | patches/gpu_worker_cachefix.py:1227-1232 | two steps after which a forward has started over an outstanding send |
| PipelineSend.ReadsFollowOnePass | patches/gpu_worker_cachefix.py:145-174 | the first read of received tensors follows one complete pass of waits and postprocessing in order; later reads run nothing |
| PipelineSend.RunOnceIff | patches/gpu_worker_cachefix.py:159-168 | each callback has run exactly once exactly when the first read did not fail |
| PipelineSend.AsyncIntermediateTensors.WaitForComm | patches/gpu_worker_cachefix.py:159-168 | what is run, and the flag, for every fault position |
| PipelineSend.PipelineWorker.ExecuteModel | patches/gpu_worker_cachefix.py:1142-1234 | handles, log and result of one step, with a raise in the waits, before the forward, in it, or part-way through the send |
| SleepWake.FirstWeightWakeRestores | patches/gpu_worker_cachefix.py:240-299 | after any partial wakes, the first wake covering the weights restores every named buffer of target and draft |
| SleepWake.LaterWakesOverwriteNothing | patches/gpu_worker_cachefix.py:282-297 | once restored, no wake overwrites a newer value |
| SleepWake.RepeatedSleepIff | patches/gpu_worker_cachefix.py:244-254 | a repeated level-2 sleep overwrites the good copy: whatever lies around it, a buffer of target or draft comes back exactly if it was still good then |
| SleepWake.SleepingWorker.SleepAt | patches/gpu_worker_cachefix.py:240-254 | the saved copies |
| SleepWake.SleepingWorker.WakeUp | patches/gpu_worker_cachefix.py:277-297 | buffers and saved copies after a wake |
| GraphStartup.Runner.Phase | patches/gpu_worker_cachefix.py:785-800 | after a phase every captured graph is on live buffers exactly when nothing was replaced after the first capture |
| GraphStartup.Runner.Cleanup | patches/gpu_worker_cachefix.py:898-919 | in place: all zero, the window -1, shapes kept, shared buffers included |
| GraphStartup.Runner.CompileOrWarmUp | patches/gpu_worker_cachefix.py:784-920 | on the V2 path the graphs are good exactly unless a buffer is replaced between captures, whatever the warm-ups do; on the V1 path the late sampler warm-up counts too; the buffers end clean |
| GraphStartup.Runner.CaptureThenWarmUp | patches/gpu_worker_cachefix.py:794-800 | the old order keeps the graphs good exactly when nothing is replaced after the first capture, by the late warm-up included |
| GraphStartup.OldOrderDangles | patches/gpu_worker_cachefix.py:794-800 | the same phases end with a dangling graph in the old order and with good graphs in the new one |
| GraphStartup.ResizeBetweenCaptures | patches/gpu_worker_cachefix.py:800-800 | a resize between two captures ends with a dangling graph in the new order too |
| CompileRanges.WarmupSizes | patches/gpu_worker_cachefix.py:759-782 | the list of sizes to warm up |
| CompileRanges.RequestedReady | patches/gpu_worker_cachefix.py:762-772 | every requested size is captured or warmed up, and nothing captured is added except by an empty range |
| CompileRanges.PlanIs | patches/gpu_worker_cachefix.py:762-782 | the requested sizes that are not captured, then an end for every range with neither a captured nor a requested size |
| CompileRanges.RangeCoveredIff | patches/gpu_worker_cachefix.py:774-782 | a range gets a ready size exactly when it is not empty, however ranges overlap |
| PhaseAccounting.Annotate | patches/gpu_worker_cachefix.py:1051-1088 | the counters of both phases, and the total as the tokens scheduled over all requests |
| PhaseAccounting.PhasesPartition | patches/gpu_worker_cachefix.py:1074-1088 | the two phases add up to the whole in every counter |
| PhaseAccounting.ComputedIs | patches/gpu_worker_cachefix.py:1059-1072 | the computed tokens of a request: its last cached entry with a count, else its last new entry, else none |
| PhaseAccounting.EveryRequestCounted | patches/gpu_worker_cachefix.py:1074-1088 | taking one request out lowers the counters of its own phase by its share and leaves the other phase alone |
| PhaseAccounting.WorkAgainstThePast | patches/gpu_worker_cachefix.py:1045-1088 | in each phase qk minus qq is the query tokens times the tokens already computed |
| PhaseAccounting.IterationOrderIrrelevant | patches/gpu_worker_cachefix.py:1074-1088 | neither the counters nor the total depend on the dictionary's order |
| Periods.FineWilf | tools/acceptance_gates.py:81 | the sharp form: a word with periods p and q and length at least p + q - gcd(p, q) has period gcd(p, q) |
| Periods.LeastPeriodDivides | tools/acceptance_gates.py:81 | a long enough factor of period q in a word of least period p forces p to divide q |
| GarbleGate.SearchIff | tools/acceptance_gates.py:81-82 | the lazy group with its back-reference matches exactly the texts with a block of 12 or more characters four times in a row, at the leftmost start with the shortest block |
| GarbleGate.LongRunIsLoop | tools/acceptance_gates.py:81-82 | a newline-free run of any period, four whole-period blocks long, is always found |
| GarbleGate.CaughtIffLong | tools/acceptance_gates.py:81-82 | for least periods up to 40 a line is found exactly when it is that long |
| GarbleGate.LongPeriodCanBeCaught | tools/acceptance_gates.py:81-82 | 40 cannot be raised: a text of least period 41 is found at half that length |
| GarbleGate.SplitIsStretches | tools/acceptance_gates.py:76 | the words are the longest stretches without whitespace, all of them, in order |
| GarbleGate.CjkIff | tools/acceptance_gates.py:73-75 | the CJK verdict and its count, counted on the text |
| GarbleGate.RepeatIff | tools/acceptance_gates.py:76-80 | the repeat verdict, its word a most frequent one and its count, counted on the text |
| GarbleGate.RepeatIsFirst | tools/acceptance_gates.py:78 | on a tie the word that occurs first |
| GarbleGate.LoopIff | tools/acceptance_gates.py:81-82 | the loop verdict |
| GarbleGate.CleanIff | tools/acceptance_gates.py:70-83 | a text passes exactly when it is not empty, is at most a tenth CJK, repeats no word too often and has no loop, counted on the text |
| GarbleGate.LongRunNeverClean | tools/acceptance_gates.py:70-83 | no text containing such a run passes |
| DecodeWindows.Record | tools/ctx_decode_bench.py:80-112 | marks, token count and first-token time of a stream |
| DecodeWindows.MarkOfChunk | tools/ctx_decode_bench.py:104-112 | the mark of each chunk with text: its time and the count up to it |
| DecodeWindows.MarksOrdered | tools/ctx_decode_bench.py:104-112 | marks are ordered in time and strictly in tokens |
| DecodeWindows.Windows | tools/ctx_decode_bench.py:116-132 | the reports, and none for short or untimed runs |
| DecodeWindows.EvenEdges | tools/ctx_decode_bench.py:118-119 | the edges cut the span into four equal parts |
| DecodeWindows.ReportSays | tools/ctx_decode_bench.py:123-132 | tokens, seconds and rate of a report, and when there is none |
| DecodeWindows.ExactlyOneQuarter | tools/ctx_decode_bench.py:118-122 | every moment before the last mark lies in exactly one quarter, the last one in none |
| DecodeWindows.WithinIsSlice | tools/ctx_decode_bench.py:122 | a window's marks are one contiguous stretch |
| DecodeWindows.WindowsNeverOvercount | tools/ctx_decode_bench.py:116-132 | the windows' tokens sum to at most last minus first cumulative count |

## Left out

- Block status objects shared by reference between manager and policy: items are values of the index, so aliasing between them is not modelled.
- KvSpec.PersistentNVMeOffloadingSpec.GetManager: a policy that is not the persistent one, the state path and environment variables are not modelled.
- KvRestore.RestoreOfSaved: JSON syntax and integers given as strings or floats are not modelled; a number either converts or raises.
- KvMachine models a power loss only as a crash of the process: the code does not fsync, so a torn file after a power cut is outside.
- SleepWake buffers are named contents of a model object; a buffer object's own identity is not modelled there.
- GarbleGate.CaughtIffLong: for least periods above 40, where the equivalence can fail, which shorter texts are found is not characterised.
- Rounding of times to milliseconds, of reported rates and of the 10% and 40% thresholds in floating point.
- HTTP streaming, request building, argument parsing, printing, and the question lists and deploy thresholds.
- Device, NCCL and torch internals, memory profiling, KV memory suggestions, sorting of warm-up sizes, profiler wrappers.
- The residual all-gather set-up of sequence parallelism and the metadata handle of a send, which the coordinator reaps.
- Shell scripts and `tools/stream_bench.py`: short folds with only easy properties.
