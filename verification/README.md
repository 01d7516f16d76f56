# Verified model of the data and control planes

This project models, in Dafny 4.11, the parts of the reinforcement learning system that move data and
decide who does what when: the replay storage, the asynchronous training protocol, the stepping of
environments, the transfer of weights, and the smaller algorithms around them.

| module | what it models |
|---|---|
| `Intervals`, `ReplayRing` | intervals of slots; one push into the storage ring as a function of its state |
| `EpisodeFifo` | the episode ring refines a queue of whole episodes |
| `ReplayRun` | runs that mix pushes and fetches: the queue and the use counters |
| `SlotUses` | slot by slot what a push leaves, and what the use counters count |
| `TransitionStream` | the transition ring keeps the newest part of the stream |
| `EpisodeGather`, `VectorEpisodes` | fetching selections of episodes; episodes of vectorised environments |
| `DataContainer` | the storage object, updated in place, proved against the functions above |
| `AsyncProtocol`, `AsyncEngineThreads` | the coordinator's events and threads as a state machine; the coordinator's operations and the loops of its threads, each in an environment where the others step at will |
| `EpisodeLife`, `EnvGroup`, `EpisodeBuffer`, `AsyncRollout` | automatic resets, futures in flight, open episodes, and the asynchronous rollout over them |
| `RolloutReplay` | the asynchronous rollout joined to the replay storage |
| `RolloutTurns`, `RslRollout` | the fixed-length rollout with termination |
| `StateDicts`, `FlatTransfer`, `DtypeOrder`, `WeightTransfer`, `ShardedTransfer`, `NumpyDicts` | weight transfer: grouping, flattening, broadcasting or scattering, rebuilding |
| `TransferPlan`, `WeightPush` | who sends to whom, and one whole synchronisation with a buffer per policy or per node |
| `SimpleRouter`, `EpisodeTable`, `Sampling` | greedy routing, shard assignment, sampling |
| `Vtrace`, `Returns`, `Chunks`, `LossMask` | backward recursions over exact reals, chunk flattening, the loss mask |
| `Arithmetic`, `Sequences` | products and quotients, slices with a stride, parts of a list in its order |

Objects of the source are classes whose methods change their fields; loops stay loops; each method is
proved against a function or a relation on values, and the properties are lemmas about these.

## Results about the code that differ from what one might expect

- The use counters are exact (0 or more on registered slots, -1 elsewhere) until a block of several
  sub-episodes longer than the storage does not divide it evenly: line 410 of
  `rlightning/buffer/utils/storage.py` resets every counter, also those of the slots no sub-episode is
  registered for (`ReplayRun.RaggedSpoils`, `ReplayRun.PushCounters`). They are exact again as soon as
  later pushes have overwritten these slots (`ReplayRun.CountersExactWhen`, an if and only if over all
  runs of pushes and fetches).
- In transition mode `size` can lag behind the number of stored transitions: line 448 rebinds
  `data_size`, so a split write adds only its second part (`TransitionStream.SizeLags`). After any run it
  is right if and only if the ring was never filled or at least `capacity` of the pushed transitions were
  counted, which depends on the lengths of the pushes alone (`TransitionStream.SizeExactWhen`). It never
  decreases (`TransitionStream.SizeGrows`).
- A broadcast loses the modules without parameters (`StateDicts.EmptyLost`, `FlatTransfer.FullRoundTrip`),
  and a buffer of numpy arrays turns uint16 tensors into bfloat16 (`NumpyDicts.Uint16Lost`,
  `NumpyDicts.NumpyRoundTrip`). The transfer into a shared buffer on the sender's own node keeps empty
  modules, the broadcast to other nodes does not, so what a policy loads depends on where it runs; it is
  the sender's dict exactly under the condition in `WeightPush.LoadPolicy`.
- `EnvGroup.step` advances the counters of all environments, so inside the automatic-reset context it
  raises exactly when an environment outside the batch is already full (`EnvGroup.EnvGroup.StepSync`,
  and one such call in `EnvGroup.SyncRaises`).
- Without `drop_last`, workers get equally many indices exactly when nothing was sampled or there are
  at least half as many indices as workers: the padding is cut from the front of the indices and there
  may be too few (`Sampling.PadEqual`; with one index and three workers the last gets nothing,
  `Sampling.PadShortSample`).
- `vtrace_correction` does not mask its temporal differences with the dones: a done before the last
  step cuts what follows only when the clipped ratio and the trace coefficient cancel (`Vtrace.DoneCuts`,
  `Vtrace.DoneLeaks`), and a done at the last step is ignored (`Vtrace.LastIgnoresDone`,
  `Vtrace.LastLeaks`).
- Adding discounted bootstrap values to the rewards bootstraps at the dones exactly when no step without
  a done is given one (`Returns.BootstrapCuts`, `Returns.BootstrapLeaks`).

## Reading guide

- A future is a natural number used once; `ray.wait` is `EnvGroup.RayWait`, which may return any non-empty
  part of what is in flight.
- The collectives are a copy of the i-th broadcast of the sender to the i-th broadcast of the receiver, a
  scatter list indexed by rank, and a concatenation in rank order.
- The iteration order of a dict is arbitrary (`WeightTransfer.Keys`) wherever the source relies on sorting
  or on names only.
- `start()` of the coordinator is one atomic step; the five events of `stop()`, waiting and clearing are
  separate steps. A thread of `AsyncEngineThreads` runs its own code, and between any two of its
  operations the other threads take any number of steps of `AsyncProtocol`; `Good` says that everything
  so far, its own operations included, is a run of that protocol.
- `EpisodeBuffer` lists the episodes in the order in which they are pushed; `RolloutReplay` takes the
  storage through these pushes, with arbitrary fetches between them.
- The serial number of an environment return counts the calls to that environment since its first reset,
  so that losing or swapping two returns would be visible.
- The recursions over real numbers are for one column; the source applies them to all columns alike.

## Model

| member | source | states |
|---|---|---|
| `EpisodeFifo.EpisodeRingIsFifo` | rlightning/buffer/utils/storage.py:351-466 | after any circular pushes the registered intervals are in range, disjoint, never straddle the pointer, and hold exactly the newest whole episodes in order of arrival (the last `capacity` steps of an oversized one); the newest episodes that would fit together with the longest block the storage can hold are all still there, also after oversized blocks |
| `EpisodeFifo.RunInv` | rlightning/buffer/utils/storage.py:351-466 | the layout of the ring (newer episodes before the pointer, older ones behind it) is kept by every run of pushes |
| `EpisodeFifo.FitSweep` | rlightning/buffer/utils/storage.py:373-389 | a block that fits evicts exactly the oldest episodes, those it overlaps, and only when they would not have fitted with room for one more block |
| `EpisodeFifo.WrapSweep` | rlightning/buffer/utils/storage.py:414-438 | an early wrap evicts exactly the oldest episodes: everything behind the pointer and what it overlaps at the front |
| `EpisodeFifo.OversizedHolds` | rlightning/buffer/utils/storage.py:393-412 | of a block longer than the storage the last whole sub-episodes stay, aligned to the end, each intact |
| `EpisodeFifo.OversizedRetained` | rlightning/buffer/utils/storage.py:393-412 | what such a block leaves together with one record more would not fit the storage, however long the block was |
| `EpisodeFifo.Step` | rlightning/buffer/utils/storage.py:373-438 | every push keeps the layout, whichever path it takes |
| `ReplayRun.ReplayIsFifo` | rlightning/buffer/utils/storage.py:275-466 | the same after any run that mixes pushes with fetches of registered episodes |
| `ReplayRun.PushCounters` | rlightning/buffer/utils/storage.py:378-438 | a push leaves exact use counters exact if and only if it is not an oversized block of several sub-episodes that leaves a rest |
| `ReplayRun.CountersExactWhen` | rlightning/buffer/utils/storage.py:305-438 | after any run of pushes and fetches the counters are exact if and only if the rest of the last such block has been overwritten |
| `ReplayRun.PushCounted` | rlightning/buffer/utils/storage.py:378-438 | how one push opens or closes the gap of slots that count as written but belong to no episode |
| `ReplayRun.FetchCounted` | rlightning/buffer/utils/storage.py:305-307 | fetching registered episodes leaves registered slots at 0 or more and all others as they were |
| `ReplayRun.ExactWithoutRagged` | rlightning/buffer/utils/storage.py:305-438 | over every run of pushes and fetches without such a block the counters are exact |
| `ReplayRun.RaggedSpoils` | rlightning/buffer/utils/storage.py:400-410 | five slots and three sub-episodes of two steps: slot 0 belongs to no episode and has counter 0 |
| `SlotUses.PushSlots` | rlightning/buffer/utils/storage.py:373-438 | after a push every slot just written holds its step and has counter 0; every other slot keeps its step, and its counter, or -1 if its episode was evicted |
| `SlotUses.PushFlatSlots` | rlightning/buffer/utils/storage.py:373-462 | the same with single transitions, over split writes; the registry does not change |
| `SlotUses.PushPointer` | rlightning/buffer/utils/storage.py:373-462 | where the next block begins, on every path |
| `SlotUses.CountersCountUses` | rlightning/buffer/utils/storage.py:275-438 | after any legal run of pushes and fetches each live episode was written by one of the pushes, has been registered ever since, and the counter of each of its slots is the number of selections that have covered the slot since that push |
| `SlotUses.CoverageIs` | rlightning/buffer/utils/storage.py:300-307 | the use a fetch adds to a slot is its number of selected episodes that cover the slot |
| `SlotUses.EpisodeSize` | rlightning/buffer/utils/storage.py:373-462 | after any pushes of episodes `size` is the number of steps pushed, up to the capacity |
| `TransitionStream.TransitionRingKeepsLatest` | rlightning/buffer/utils/storage.py:373-462 | reading from the pointer around the array gives, in order, the last min(pushed, capacity) transitions, over split writes and oversized pushes; every index below `size` was written |
| `TransitionStream.StepFollows` | rlightning/buffer/utils/storage.py:373-462 | each push appends its steps to the stream the array shows |
| `TransitionStream.SizeExact` | rlightning/buffer/utils/storage.py:373-462 | from any reachable state, when exactly a push leaves `size` equal to min(pushed, capacity); it never shrinks |
| `TransitionStream.SizeIs` | rlightning/buffer/utils/storage.py:373-462 | after any run the pointer and `size` in closed form, from the lengths of the pushes |
| `TransitionStream.SizeExactWhen` | rlightning/buffer/utils/storage.py:373-462 | after any run `size` is min(pushed, capacity) if and only if less than the capacity was pushed or at least the capacity was counted |
| `TransitionStream.SizeGrows` | rlightning/buffer/utils/storage.py:373-462 | over every run `size` never decreases and never exceeds what is stored |
| `TransitionStream.SizeLags` | rlightning/buffer/utils/storage.py:446-462 | a run after which `size` is smaller than the number of stored transitions |
| `EpisodeGather.OccurrencesAreCoverage` | rlightning/buffer/utils/storage.py:300-307 | an offset occurs in the concatenated ranges once per selected episode that covers it |
| `EpisodeGather.OffsetsPart` | rlightning/buffer/utils/storage.py:303-315 | the i-th piece by cumulative length lists the slots of the i-th selected episode |
| `EpisodeGather.GatheredPart` | rlightning/buffer/utils/storage.py:300-316 | the i-th part of the fetched data is the i-th selected episode, repeats included |
| `DataContainer.DataContainer.constructor` | rlightning/buffer/utils/storage.py:188-211 | an empty storage: no episodes, pointer and size 0, all counters -1 |
| `DataContainer.DataContainer.Push` | rlightning/buffer/utils/storage.py:351-462 | a push changes the storage as the ring function says; in fixed mode it is refused when it does not fit, and an empty episode is refused by the interval tree |
| `DataContainer.DataContainer.PushAll` | rlightning/buffer/utils/storage.py:353-356 | pushing a list in circular mode is the run of its pushes |
| `DataContainer.DataContainer.PushBlock` | rlightning/buffer/utils/storage.py:373-438 | the episode paths: fits, early wrap, oversized, refused |
| `DataContainer.DataContainer.PushFit` | rlightning/buffer/utils/storage.py:373-391 | a block that fits evicts, registers, resets the counters and is written behind the pointer |
| `DataContainer.DataContainer.PushWrap` | rlightning/buffer/utils/storage.py:414-438 | a block that does not fit behind the pointer evicts everything there and is written at the start |
| `DataContainer.DataContainer.PushOversized` | rlightning/buffer/utils/storage.py:393-412 | only the last `capacity` steps are written and the whole sub-episodes among them registered |
| `DataContainer.DataContainer.PushFlat` | rlightning/buffer/utils/storage.py:373-462 | the transition paths: fits, split, oversized, refused |
| `DataContainer.DataContainer.PushSplit` | rlightning/buffer/utils/storage.py:439-462 | a split write fills the end and continues at the start |
| `DataContainer.DataContainer.Evict` | rlightning/buffer/utils/storage.py:378-381 | evicted episodes leave the registry and their counters become -1, whatever the order of eviction |
| `DataContainer.DataContainer.Register` | rlightning/buffer/utils/storage.py:383-387 | one interval per sub-episode, end to end |
| `DataContainer.DataContainer.RegisterOversized` | rlightning/buffer/utils/storage.py:400-408 | counting back from the end registers the last floor(capacity / length) sub-episodes |
| `DataContainer.DataContainer.WriteData` | rlightning/buffer/utils/storage.py:464-466 | a batch is written at its place and nothing else changes |
| `DataContainer.DataContainer.Clear` | rlightning/buffer/utils/storage.py:468-477 | the storage is empty again |
| `DataContainer.DataContainer.Gather` | rlightning/buffer/utils/storage.py:275-318 | an index below -n or not below n is an error that changes nothing; otherwise the selected episodes are returned in order, negative indices counting from the end, as rows exactly when they are equally long, and each slot's counter rises by its number of covering selections |
| `DataContainer.DataContainer.CountUses` | rlightning/buffer/utils/storage.py:307-307 | each slot's counter rises by the number of times its offset occurs |
| `VectorEpisodes.VectorEpisodeLands` | rlightning/buffer/utils/storage.py:128-145 | after flattening and pushing, interval i of the block holds exactly environment i's steps in time order |
| `VectorEpisodes.OversizedVectorEpisodeLands` | rlightning/buffer/utils/storage.py:400-412 | of an oversized vectorised episode exactly the last floor(capacity / length) trajectories are registered, each whole |
| `VectorEpisodes.RecordsAreTrajectories` | rlightning/buffer/utils/storage.py:135-140 | cutting the permuted and flattened episode gives the trajectories of the environments |
| `AsyncProtocol.Safety` | rlightning/engine/async_rl_engine.py:35-87 | in every state of every interleaving training overlaps neither an update nor a sync; the k-th training has k updates and k - 1 syncs behind it; updates are at most one ahead and syncs never, also during `stop` |
| `AsyncProtocol.StepInv` | rlightning/engine/async_rl_engine.py:217-266 | each step of each thread conserves the two tokens that travel between the threads |
| `AsyncProtocol.RunInv` | rlightning/engine/async_rl_engine.py:217-266 | so does every run |
| `AsyncProtocol.NoDeadlock` | rlightning/engine/async_rl_engine.py:43-73 | some unfinished thread can step if and only if not all have ended: no wakeup is lost |
| `AsyncProtocol.StepUsesWork` | rlightning/engine/async_rl_engine.py:217-266 | a well-founded measure drops with every step of the trainer, the updater and the syncer |
| `AsyncProtocol.Liveness` | rlightning/engine/async_rl_engine.py:240-266 | at most 49 * max_epochs + 53 such steps happen; a run is stuck only when all three threads have ended, and then every epoch was trained or a training raised |
| `AsyncProtocol.RolloutEnds` | rlightning/engine/async_rl_engine.py:181-191 | once `done` is set the rollout ends within two of its steps |
| `AsyncEngineThreads.AsyncCoordinator.WaitForDatasetReady` | rlightning/engine/async_rl_engine.py:55-58 | the wait ends, whatever the other threads do, and the event is cleared |
| `AsyncEngineThreads.AsyncCoordinator.WaitForWeightsUpdated` | rlightning/engine/async_rl_engine.py:60-63 | so does this one; afterwards no update and no sync is under way, one more update than trainings and as many syncs are complete |
| `AsyncEngineThreads.AsyncCoordinator.WaitForUpdateDataset` | rlightning/engine/async_rl_engine.py:65-68 | the updater never waits for ever |
| `AsyncEngineThreads.AsyncCoordinator.WaitForSyncWeights` | rlightning/engine/async_rl_engine.py:70-73 | nor does the syncer |
| `AsyncEngineThreads.AsyncCoordinator.LetOthers` | rlightning/engine/async_rl_engine.py:55-73 | whenever a thread has to wait another thread can step, and doing so uses up work |
| `AsyncEngineThreads.AsyncCoordinator.Stop` | rlightning/engine/async_rl_engine.py:43-49 | stopping ends with `done` and both events the trainer waits for set, and with every epoch trained or a failure |
| `AsyncEngineThreads.AsyncCoordinator.TrainLoop` | rlightning/engine/async_rl_engine.py:240-258 | the training loop ends in any environment: every epoch was trained unless a training or a checkpoint raised, and the coordinator is stopped either way; all of it is a run of the protocol; checkpoints were saved after exactly the trained epochs that are multiples of the interval, but for one whose saving raised |
| `AsyncEngineThreads.AsyncCoordinator.UpdateDatasetLoop` | rlightning/engine/async_rl_engine.py:217-225 | the loop of the updater ends in any environment, and only after `done` |
| `AsyncEngineThreads.AsyncCoordinator.SyncWeightsLoop` | rlightning/engine/async_rl_engine.py:260-266 | so does the loop of the syncer |
| `EpisodeLife.SubmitAlive` | rlightning/env/env_group.py:603-609 | the next call is a reset exactly when the last entry ended an episode, and it has the next number |
| `EpisodeLife.LandAlive` | rlightning/env/env_group.py:731-735 | collecting never exceeds the maximum, and every stored episode has maximum + 1 entries of one environment, the first from a reset |
| `EpisodeLife.PlayedAlive` | rlightning/engine/async_rl_engine.py:173-191 | whatever lands in which pass: no counter exceeds its maximum, each counter matches the open episode, every stored episode is whole, and the entries hold the returns of all calls, one each, in the order of the calls |
| `EpisodeLife.EntriesCount` | rlightning/engine/async_rl_engine.py:182-191 | an environment has one entry for its reset and one for each time it landed |
| `EpisodeLife.EpisodesCount` | rlightning/engine/async_rl_engine.py:182-191 | so after n landings it has handed over (n + 1) / (maximum + 1) episodes |
| `EnvGroup.EnvStepCounter.Step` | rlightning/env/env_group.py:103-116 | the counter's error is raised exactly when the maximum would be exceeded |
| `EnvGroup.EnvGroup.Reset` | rlightning/env/env_group.py:448-485 | every environment returns from a reset; inside the context its counter is 0, outside it does not change |
| `EnvGroup.EnvGroup.StepAsync` | rlightning/env/env_group.py:576-639 | one call per environment of the batch, a reset for the full ones inside the context and a step for the others; each call has its own future |
| `EnvGroup.EnvGroup.CollectAsync` | rlightning/env/env_group.py:641-739 | some non-empty part of what is in flight is taken off the books, each result with its own environment; counters, truncations and the counter's error |
| `EnvGroup.EnvGroup.StepSync` | rlightning/env/env_group.py:535-572 | the synchronous step inside the context; its error is raised exactly when an environment outside the batch is full |
| `EnvGroup.SyncRaises` | rlightning/env/env_group.py:535-572 | two environments, one of them allowed no step: stepping the other raises |
| `EpisodeBuffer.EpisodeBuffer.AddResponses` | rlightning/buffer/base_buffer.py:400-422 | each response finishes the pending transition of its environment, and a flagged episode is handed to the storage whole |
| `EpisodeBuffer.EpisodeBuffer.Push` | rlightning/buffer/utils/storage.py:684-686 | episodes reach the storage one by one; what was pushed is, environment by environment, what is stored |
| `EpisodeBuffer.EpisodeBuffer.TruncateOneEpisode` | rlightning/buffer/utils/storage.py:671-686 | the open episode goes to the storage as it is |
| `EpisodeBuffer.EpisodeBuffer.AddOneAuto` | rlightning/buffer/utils/storage.py:618-643 | with automatic truncation an episode is handed over exactly when its last transition is done |
| `EpisodeBuffer.EpisodeBuffer.PopDoneEpisode` | rlightning/buffer/utils/storage.py:147-167 | the episode of a done environment is popped and its flag cleared |
| `AsyncRollout.AsyncEngine.TakeOff` | rlightning/engine/async_rl_engine.py:186-186 | after submitting, every environment is in flight |
| `AsyncRollout.AsyncEngine.TouchDown` | rlightning/engine/async_rl_engine.py:187-191 | after collecting and recording, the batch is exactly what is not in flight; the step counter's error is not raised |
| `AsyncRollout.AsyncEngine.Pass` | rlightning/engine/async_rl_engine.py:185-191 | one pass submits every waiting environment and lands at least one result |
| `AsyncRollout.AsyncEngine.Rollout` | rlightning/engine/async_rl_engine.py:173-191 | for any number of passes and any scheduler: no counter error, every future in flight or collected once, and the environments have lived through exactly these passes |
| `RolloutReplay.HandedComplete` | rlightning/buffer/utils/storage.py:671-686 | everything handed over is a complete episode of one environment, from a reset to its last step |
| `RolloutReplay.StorageKeepsEpisodes` | rlightning/buffer/utils/storage.py:351-466 | complete episodes pushed in any order, with any fetches in between: every live interval holds exactly one of them (its last `capacity` steps when it is longer than the storage), they are the newest in order of arrival, and none that is recent enough is missing |
| `RolloutReplay.RolloutIntoStorage` | rlightning/engine/async_rl_engine.py:173-191 | from the environments to the storage: so it is after any passes of the asynchronous rollout under any scheduler |
| `RolloutTurns.RemainingDrops` | rlightning/engine/rsl_rl_engine.py:86-112 | the sum of remaining steps drops when results are collected |
| `RslRollout.RslEngine.Pass` | rlightning/engine/rsl_rl_engine.py:86-112 | waiting, in-flight and finished environments stay a partition, nothing is collected when nothing is in flight, and the remaining steps drop |
| `RslRollout.RslEngine.CountSteps` | rlightning/engine/rsl_rl_engine.py:96-102 | counters of the landed environments rise by one, and those at the maximum finish |
| `RslRollout.RslEngine.Run` | rlightning/engine/rsl_rl_engine.py:82-121 | the loop ends for every order of results; all environments are finished |
| `RslRollout.RslEngine.Rollout` | rlightning/engine/rsl_rl_engine.py:76-133 | in every rollout of a run each environment hands over exactly one episode of `max_rollout_steps` + 1 entries, begun by the return it started from and made of consecutive returns; nothing is in flight and no episode open at the end |
| `RslRollout.RslEngine.Rollouts` | rlightning/engine/rsl_rl_engine.py:76-133 | over any number of rollouts an environment is reset once: episode i begins with the last return of the episode before it, and its returns have the numbers i * `max_rollout_steps` onwards without a break |
| `StateDicts.RebuildMeaning` | rlightning/weights/weight_transfer_manager.py:58-75 | putting the parameters back in any order gives the nested dict, exactly when no module is empty |
| `StateDicts.EmptyLost` | rlightning/weights/weight_transfer_manager.py:58-75 | a module without parameters does not come back |
| `StateDicts.MeaningAt` | rlightning/weights/weight_transfer_manager.py:38-49 | the dict of a list of modules holds under each module's name exactly its parameters, by name |
| `StateDicts.ItemsAt` | rlightning/weights/weight_transfer_manager.py:38-49 | the double loop meets module after module, and the parameters of each in order |
| `StateDicts.NumelSplits` | rlightning/weights/weight_transfer_manager.py:47-47 | `numel` is the product of all dimensions |
| `FlatTransfer.GroupByDtype` | rlightning/weights/weight_transfer_manager.py:35-50 | both dicts list, per dtype, the parameters of that dtype in order |
| `FlatTransfer.OfDtypePicks` | rlightning/weights/weight_transfer_manager.py:38-50 | the parameters of a dtype are listed as often and in the order they are met |
| `FlatTransfer.ConcatAt` | rlightning/weights/weight_transfer_manager.py:183-186 | in the flat vector the elements of parameter i follow those of all earlier ones |
| `FlatTransfer.SliceExact` | rlightning/weights/weight_transfer_manager.py:59-74 | slicing by running offset undoes the concatenation, and the offsets use up the vector |
| `FlatTransfer.FullRoundTrip` | rlightning/weights/weight_transfer_manager.py:35-75 | grouping, flattening, slicing and rebuilding give back every tensor |
| `DtypeOrder.SortAgrees` | rlightning/weights/weight_transfer_manager.py:181-218 | sender and receiver sort the dtypes alike, whatever order their dicts have |
| `DtypeOrder.LeqIs` | rlightning/weights/weight_transfer_manager.py:181-181 | the order is the alphabetical one: a prefix first, otherwise the first difference decides |
| `WeightTransfer.SendFull` | rlightning/weights/weight_transfer_manager.py:174-193 | one flat vector per dtype, in sorted order |
| `WeightTransfer.RecvFull` | rlightning/weights/weight_transfer_manager.py:218-235 | the i-th broadcast is received as the i-th dtype, with the described length |
| `WeightTransfer.PayloadLengths` | rlightning/weights/weight_transfer_manager.py:183-229 | sent and expected lengths are equal |
| `WeightTransfer.FlatToState` | rlightning/weights/weight_transfer_manager.py:52-75 | the nested loops put every sliced tensor at its module and name; as numpy arrays all keep shape and bits, bfloat16 becomes uint16 and no other dtype changes |
| `WeightTransfer.SyncFull` | rlightning/weights/weight_transfer_manager.py:174-246 | after one broadcast transfer the buffer is ready and keeps the sender's dict without empty modules; a CPU buffer keeps arrays of the same shapes and bits, uint16 for bfloat16 |
| `WeightTransfer.SyncLocal` | rlightning/weights/weight_transfer_manager.py:157-172 | within a process the buffer keeps the whole dict, as tensors or as such arrays |
| `WeightTransfer.SendCpu` | rlightning/weights/weight_transfer_manager.py:77-86 | into the shared buffer of its own node a sender puts the whole dict as numpy arrays of the same shapes and bits, uint16 for bfloat16 |
| `WeightTransfer.UpdateWeights` | rlightning/weights/weight_buffer_mixin.py:63-72 | what a policy loads from a buffer |
| `WeightTransfer.DeliveryLoads` | rlightning/weights/weight_buffer_mixin.py:63-72 | it is the sender's dict if and only if the transfer was whole or no module is empty, and the buffer keeps tensors or none is uint16 |
| `ShardedTransfer.PaddedLength` | rlightning/weights/weight_transfer_manager.py:264-318 | the sender's chunk length is the receiver's computed shard length |
| `ShardedTransfer.PaddingIs` | rlightning/weights/weight_transfer_manager.py:264-269 | the padding is less than the number of ranks and makes the length divisible |
| `ShardedTransfer.ShardAt` | rlightning/weights/weight_transfer_manager.py:270-273 | rank r gets the r-th stretch of the vector, and zeros behind its end |
| `ShardedTransfer.ShardRoundTrip` | rlightning/weights/weight_transfer_manager.py:264-279 | one shard per rank, all equally long; concatenated in rank order and narrowed they are the vector, also when it has no elements |
| `ShardedTransfer.SendSharded` | rlightning/weights/weight_transfer_manager.py:248-289 | one scatter list per dtype: a dummy of the length of a shard for the sender, then the shards |
| `ShardedTransfer.ShardedWeightBuffer.Receive` | rlightning/weights/weight_transfer_manager.py:291-331 | a rank keeps its own piece of every dtype and is ready after the last |
| `ShardedTransfer.GatherAll` | rlightning/weights/weight_buffer.py:139-151 | gathered pieces in rank order, narrowed to the unpadded length |
| `ShardedTransfer.ShardedRoundTrip` | rlightning/weights/weight_buffer.py:131-153 | scattering, gathering and rebuilding give back the dict, for any number of ranks |
| `ShardedTransfer.SyncSharded` | rlightning/weights/weight_transfer_manager.py:248-331 | the whole sharded transfer ends with the sender's dict without empty modules |
| `NumpyDicts.StateToNumpy` | rlightning/weights/utils.py:83-92 | the same modules and names, every entry an array with the same shape and bits; its dtype is uint16 exactly where the tensor was bfloat16 or uint16, never bfloat16, and all other dtypes are kept |
| `NumpyDicts.StoredRepresents` | rlightning/weights/utils.py:83-92 | the same of everything a buffer keeps |
| `NumpyDicts.StateToTensors` | rlightning/weights/utils.py:65-80 | uint16 arrays become bfloat16 tensors, tensors pass |
| `NumpyDicts.Load` | rlightning/weights/utils.py:58-80 | telling the kind of a state dict from its first parameter is enough, since all its parameters are of one kind |
| `NumpyDicts.NumpyRoundTrip` | rlightning/weights/utils.py:65-92 | keeping as numpy arrays is undone exactly when there is no uint16 tensor |
| `NumpyDicts.Uint16Lost` | rlightning/weights/utils.py:65-92 | a uint16 tensor comes back as bfloat16 |
| `TransferPlan.InitPlacement` | rlightning/policy/policy_group.py:137-159 | every policy is seated on its node, only nodes with policies are listed, and they are listed in the order of their first policies, training policies first |
| `TransferPlan.OnNodePicks` | rlightning/policy/policy_group.py:137-159 | a node lists its policies as often and in the order they were given |
| `TransferPlan.BuildRouter` | rlightning/policy/policy_group.py:713-742 | the routes, or the error |
| `TransferPlan.SendersTrain` | rlightning/policy/policy_group.py:729-742 | there is no sender exactly when no node trains |
| `TransferPlan.SendersDedicated` | rlightning/policy/policy_group.py:729-742 | nodes that only train send if there are any; otherwise every node that trains does |
| `TransferPlan.SendersTakeTurns` | rlightning/policy/policy_group.py:729-740 | the i-th node that only evaluates is fed by sender i modulo their number and by no other; a mixed node feeds itself first |
| `TransferPlan.ClassesPick` | rlightning/policy/policy_group.py:718-727 | each class lists its nodes in the order of the placement |
| `TransferPlan.FedOnce` | rlightning/policy/policy_group.py:718-740 | each node with evaluation policies is in exactly one place of the routes |
| `TransferPlan.SpreadEven` | rlightning/policy/policy_group.py:729-740 | nodes that only evaluate are spread with counts differing by at most one |
| `TransferPlan.BuildTransferInfo` | rlightning/policy/policy_group.py:693-767 | the plan; the error for no training policy is raised exactly then, the one for the strategy exactly when it is sharded, some node trains and some node evaluates |
| `TransferPlan.DoubleFeedsOnce` | rlightning/policy/policy_group.py:744-763 | under "None" and "Double" every evaluation policy is in exactly one receiver list, once, with exactly the other evaluation policies of its node, and the sender trains on the node of the list |
| `TransferPlan.SharedFeedsOnce` | rlightning/policy/policy_group.py:744-763 | under "Shared" every node with evaluation policies is fed exactly once |
| `TransferPlan.TrainersTakeTurns` | rlightning/policy/policy_group.py:744-752 | the training policies of a node send its transfers in turn, so their shares differ by at most one |
| `WeightPush.InitWeightBuffers` | rlightning/policy/policy_group.py:167-202 | each evaluation policy has its own buffer of the kind asked for, or all policies of a node share one that keeps numpy arrays |
| `WeightPush.SendWeights` | rlightning/policy/policy_group.py:566-596 | after sending, every buffer a transfer writes keeps its sender's dict, with own and with shared buffers |
| `WeightPush.SlotTarget` | rlightning/policy/policy_group.py:729-763 | a transfer writes exactly the buffers of one node, with own and with shared buffers |
| `WeightPush.SyncWeights` | rlightning/policy/policy_group.py:125-202 | from the policy lists to synchronised buffers: the buffer of every evaluation policy keeps a training policy's dict, or there is no training policy; whole within a process and for a shared buffer on a node that trains, else without empty modules |
| `WeightPush.LoadPolicy` | rlightning/weights/weight_buffer_mixin.py:63-72 | an evaluation policy then loads what its buffer keeps of one training policy's dict; it is that very dict if and only if it came whole or has no empty module, and was kept as tensors or has no uint16 tensor |
| `SimpleRouter.Assign` | rlightning/policy/utils/router.py:36-51 | no policy has less load than the one chosen for a task, and every policy before it has more, where a load is the given one plus the tasks placed so far; the error exactly when there are no policies |
| `SimpleRouter.PlacedCounts` | rlightning/policy/utils/router.py:46-51 | the final load of a policy is its first one plus its number of tasks |
| `SimpleRouter.Conservation` | rlightning/policy/utils/router.py:46-51 | the total load grows by the number of tasks |
| `SimpleRouter.NeverLess` | rlightning/policy/utils/router.py:46-51 | no load shrinks, and exactly the policies with a task gain |
| `SimpleRouter.Balanced` | rlightning/policy/utils/router.py:46-51 | a policy that got a task ends within one of every other |
| `SimpleRouter.Optimal` | rlightning/policy/utils/router.py:36-51 | no assignment of as many tasks has a smaller maximum load |
| `EpisodeTable.EpisodeTable.Create` | rlightning/buffer/utils/table.py:40-61 | refused without a shard; otherwise a table that knows exactly the given environments, and if these are all different the i-th is on shard i modulo the number of shards |
| `EpisodeTable.EpisodeTable.SelectStorage` | rlightning/buffer/utils/table.py:121-131 | the first least loaded shard from the cursor on; the fallback is not reached |
| `EpisodeTable.AroundIs` | rlightning/buffer/utils/table.py:126-126 | the cursor goes forward modulo the number of shards |
| `EpisodeTable.EpisodeTable.RegisterEnv` | rlightning/buffer/utils/table.py:111-119 | an environment is registered once, on the first least loaded shard from the cursor on, and the cursor moves behind that shard; counts are the shard sizes and differ by at most one |
| `EpisodeTable.EpisodeTable.RegisterEnvs` | rlightning/buffer/utils/table.py:106-109 | all are registered, earlier ones unchanged; different environments in a fresh table go to the shards in turn |
| `EpisodeTable.EpisodeTable.BucketByStorage` | rlightning/buffer/base_buffer.py:454-457 | truncated environments are grouped by their own shard, in order |
| `EpisodeTable.OfShardHas` | rlightning/buffer/base_buffer.py:454-461 | every environment is in the bucket of its shard and in no other |
| `EpisodeTable.OfShardPicks` | rlightning/buffer/base_buffer.py:454-461 | a bucket lists its environments as often and in the order they were given |
| `Sampling.AssignTrainWorkers` | rlightning/buffer/utils/table.py:157-167 | equal contiguous blocks of workers, or which of the two errors |
| `Sampling.WorkerPlace` | rlightning/buffer/utils/table.py:163-167 | every worker is in exactly one block, at one place |
| `Sampling.SlicesPartition` | rlightning/buffer/base_buffer.py:551-563 | every kept or padded position goes to exactly one worker, at one place of its slice, with and without `drop_last` |
| `Sampling.SliceAt` | rlightning/buffer/base_buffer.py:561-563 | every place of a slice holds the index at its strided position |
| `Sampling.SliceHolds` | rlightning/buffer/base_buffer.py:551-563 | place q of the slice of a rank is the sampled index at position rank + q * workers, for exactly the whole rounds with `drop_last`; without it positions past the end repeat the indices from the front |
| `Sampling.DropKeeps` | rlightning/buffer/base_buffer.py:552-563 | with `drop_last` every position of a whole round goes to exactly one worker: rank position % workers, place position / workers |
| `Sampling.DropEqual` | rlightning/buffer/base_buffer.py:552-554 | dropping the rest gives every worker floor(n / workers) indices |
| `Sampling.PadCovers` | rlightning/buffer/base_buffer.py:555-563 | without dropping, every sampled index is in a slice |
| `Sampling.PadEqual` | rlightning/buffer/base_buffer.py:555-559 | when exactly padding makes the slices equally long |
| `Sampling.PadShortSample` | rlightning/buffer/base_buffer.py:555-559 | one index and three workers: the last gets nothing |
| `Sampling.Distribute` | rlightning/buffer/base_buffer.py:531-567 | every worker slot is filled exactly once, with its shard and its slice of the shard's indices; unequal shard sizes are an error |
| `Vtrace.VtraceCorrection` | rlightning/policy/utils/vtrace.py:75-103 | the backward loop and the advantages against the recursion; the last advantage is what the target adds to the value, earlier ones are apart from that by the weighted gain of the next target over the next value |
| `Vtrace.RatiosCut` | rlightning/policy/utils/vtrace.py:78-79 | both coefficients of a step are its own ratio, or the threshold where that is exceeded |
| `Vtrace.AdvantageLast` | rlightning/policy/utils/vtrace.py:99-100 | at the last step the advantage is the target minus the value |
| `Vtrace.AdvantageBefore` | rlightning/policy/utils/vtrace.py:85-97 | before it, when not done, the target minus the value exceeds the advantage by gamma * (c - clipped rho) * (next target - next value) |
| `Vtrace.AdvantageIsGain` | rlightning/policy/utils/vtrace.py:85-97 | so with equal thresholds it is the target minus the value |
| `Vtrace.AdvantageOnPolicy` | rlightning/policy/utils/vtrace.py:97-100 | on policy it is the reward plus the discounted next target minus the value |
| `Vtrace.ClosedForm` | rlightning/policy/utils/vtrace.py:85-94 | the loop is the value plus the weighted differences up to the first done, less the done's residue |
| `Vtrace.OnPolicyReturn` | rlightning/policy/utils/vtrace.py:85-94 | with ratios 1 the targets are the discounted returns cut at each done, the last step bootstrapped |
| `Vtrace.DoneCuts` | rlightning/policy/utils/vtrace.py:92-94 | when exactly a done before the last step cuts what follows |
| `Vtrace.DoneLeaks` | rlightning/policy/utils/vtrace.py:92-94 | an episode in which it does not |
| `Vtrace.LastIgnoresDone` | rlightning/policy/utils/vtrace.py:89-89 | when exactly the last target does not depend on the next value |
| `Vtrace.LastLeaks` | rlightning/policy/utils/vtrace.py:89-89 | a done last step whose target is the value after it |
| `Returns.DefaultComputeGae` | rlightning/buffer/utils/utils.py:157-172 | the loop computes the recursion's advantages and returns, and each return is its advantage plus the value |
| `Returns.ComputeReturnsPpo` | examples/openvla_ppo/utils.py:98-119 | the same loop on combined dones and rewards changed in place, by the discounted bootstrap value of each step if there are any |
| `Returns.ComputeGaeAdvantagesAndReturns` | examples/openpi_ppo/utils.py:130-149 | the same with one list of values; without a critic the sum of rewards up to the next done |
| `Returns.LambdaReturn` | rlightning/buffer/utils/utils.py:164-172 | the returns are the lambda-returns |
| `Returns.Telescopes` | rlightning/buffer/utils/utils.py:164-172 | with lambda 1 they are the discounted returns cut at dones |
| `Returns.LoopsAgree` | examples/openpi_ppo/utils.py:143-149 | the loop with one list of values computes the same advantages and returns as the others |
| `Returns.CriticFreeAgrees` | examples/openpi_ppo/utils.py:138-149 | without a critic it is the loop with values of zero and discount and lambda 1 |
| `Returns.BootstrapCuts` | examples/openvla_ppo/utils.py:105-109 | when exactly adding bootstrap values to rewards bootstraps at the dones |
| `Returns.BootstrapLeaks` | examples/openvla_ppo/utils.py:105-109 | one step for which it does not |
| `Chunks.FlattenAt` | examples/openpi_ppo/utils.py:206-218 | step c of chunk t is at time t * (steps per chunk) + c |
| `Chunks.UnflattenFlatten` | examples/openpi_ppo/utils.py:253-258 | unflattening undoes flattening |
| `Chunks.FlattenUnflatten` | examples/openpi_ppo/utils.py:253-258 | and the other way round |
| `LossMask.MaskAt` | examples/openpi_ppo/utils.py:263-275 | the mask is true exactly before the first done in flat time, so it is a prefix |
| `LossMask.FirstDoneInChunks` | examples/openpi_ppo/utils.py:268-271 | what the first done is in terms of the chunks |
| `LossMask.MaskSums` | examples/openpi_ppo/utils.py:277-278 | the mask of an environment adds up to the flat time of its first done |

## Left out

- Ray, torch.distributed, ZMQ, thread pools, logging, profiling, checkpoints, configuration: input and output; what they return is a parameter or an arbitrary choice.
- Environment servers and sub-environment ids (`rlightning/env/env_group.py:618-636`, 711-735): results are flattened per client while truncations are computed on the unflattened ids.
- Waiting remotely when nothing is in flight: a precondition of `CollectAsync`, since `ray.wait` refuses an empty list; both rollouts are proved never to do it (the asynchronous one with at least one environment).
- Empty inputs that the source refuses with an index error: `vtrace_correction` on no steps.
- The list of futures in flight is a set, because `ray.wait` may return its parts in any order; the order of a collected batch is arbitrary.
- The step counter is reset when the automatic-reset context is entered, where the source builds a new one.
- `max_rollout_steps` is at least 1 in `RslRollout`: with 0 no environment ever reaches it and the loop does not end.
- Fixed mode as a guarantee against overwriting: at exact fill the pointer returns to 0 (`rlightning/buffer/utils/storage.py:461`) and a later push is accepted; indexing in transition mode; slices and single integers as episode indices.
- Mixing automatic with manual truncation; splitting vectorised transitions into sub-environments when they are added; the postprocess functions of episodes.
- Node-affinity assignment of environments and workers, which makes no promise of even loads; the sampler's choice of indices, which is a parameter.
- Validation of a state dict's value types (`rlightning/weights/weight_buffer.py:48-64`), which looks at one parameter only; tensors of reference type that share memory; `add_flat_tensor`, called by `apply_to_model`, is not part of this model, and its place is taken by the rebuilding loop.
- The strategies "None" and colocated policies; a sharded buffer among the policies of a group, which the source does not support.
- The update events inside an evaluation policy, where wait and clear are shared by two threads.
- `default_gae_no_loop`, normalisation, floating-point rounding, the exponential of the log ratios; the dones-masked `batch_step_correction`; summing rewards at chunk level.
- An exception outside a training (in a worker's body or in the rollout) is not modelled; one in a training or its checkpoint is. The wait for enough data before a dataset update is part of the update; the rollout thread of `AsyncEngineThreads` is only part of the environment.
- Neural models, simulators, kinematics, rendering, loss functions.
