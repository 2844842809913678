# Verification of an overlaid inference engine

This project models the parts of the repository that carry state machines or move indices around, and proves
what they are for. One module models one component:

- `DpEngine`, `DpProtocol`, `DpAnyClient`, `DpPause`, `DpProgress`, `DpMixing`: data-parallel ranks that step on their own, meet in an all-reduce every 32
  steps and agree on a two-phase pause. The class holds a rank's fields; the protocol is a transition system whose
  actions are the sections of a rank's loop between two points where it can block.
- `DiskSnapshot`, `DiskSleep`, `DiskComposition`, `SleepJournal`, `TwoPhaseSleep`: the durable snapshot written and read through one bounded buffer,
  the per-worker sleep state machine with a fault possible at every step, and prepare-all-or-cancel-all over ranks
  with rollback.
- `AutoSleep`, `AutoSleepLoop`, `AutoSleepMessages`: the idle controller's hooks, and every interleaving of them with
  messages, a timer thread and shutdown signals.
- `RespawnGate`: the gate that lets requests share one respawn after a deep-sleep exit.
- `BatchQueue`: stepping with a bounded queue of batches in flight.
- `LoadBalancer`, `LoadRuns`: choosing an engine from stale snapshots and exact in-flight counts.
- `GdnPartition`, `GdnMetadata`: the token partition of mixed speculative batches, the metadata builder with its
  persistent buffers, and the fast path that refines it.
- `PagedKv`, `DraftMasks`: the paged key-value layout and the packed draft masks.
- `Bf16`, `ShardedTopK`, `GroupedConv`, `ScaledTransport`, `DraftNetwork`, `FusedProjection`: rounding to bfloat16 by
  bit pattern, top-k over a sharded vocabulary, the block-local convolution, the scalings that cancel, the network that
  the scaled model computes, and the fused projection.
- `Options`, `Arithmetic`, `Sums`, `Tensors`: shared definitions.

Assumptions about code outside the model: `sync_dp_state` gives every rank the same pair, its second part is the
conjunction of the pending flags, and its first part is true if any rank has unfinished requests; requests added
while paused do not count as unfinished; the client issues pause and resume to every rank. Whether it resumes only
what it has paused, and whether it waits for all answers before the next command, is a parameter. The set of
allocations is fixed, weights are not written between prepare and resume, a failing map or unmap leaves its allocation
as it was, the unmap that cleans up after a failed restore succeeds, and the digest is injective. Each hook, each poke and each await-free section is one atomic step.

The methods of `DPEngineCore`, `AutoSleepController` and `AsyncLLM` are proved to compute the transition functions
that the protocols run on; the rows below name what is proved of those functions. A rank's part of a run is a history
of that rank (`DpAnyClient.RunIsHistory`), so what is proved of histories holds in runs.

Three findings. A comment in `resume_scheduler` calls its barrier safe because engines are stopped. Over all runs that
holds if and only if the client both resumes only what it has paused and waits for every rank's answer before the next
command (`DpMixing.NeverMixesIff`); `resume_scheduler` refuses a resume while its own rank's pause is in flight, but
another rank may take the same resume after the ranks have agreed (`DpMixing.ImpatientResumeMixes`). The packed draft
masks take the uniform form also for padded token counts with empty requests, and every request then reads its
attention relation if and only if the empty requests are at the back (`DraftMasks.ChosenMaskIsRightIff`,
`DraftMasks.PaddedMiddleMisread`). A batch whose only empty requests are appended padding
(vllm/v1/attention/backends/gdn_attn.py:314-316 relies on that order) always has them there. A pause can strand a
rank: if the all-reduce ends the wave after this rank took the pause and before another did, this rank stops, its idle
callback answers the pause, and the other ranks wait for it in the next all-reduce until a wave message wakes it
(`DpProgress.PauseCanStrand`, `DpProgress.StrandedNeedsWave`); with such a message every pause can finish
(`DpProgress.PauseCanFinish`). This rests on the all-reduce reporting no unfinished work when no rank has any.

## Model

| member | source | states |
|---|---|---|
| DpEngine.PausedRankAnswersResume | vllm/v1/engine/core.py:2208-2256 | after a pause, whatever happens then, a resume is refused exactly while the ranks have not agreed to stop or this one still runs, reaches the barrier otherwise, and is never ignored |
| DpEngine.UnpausedNeverRefuses | vllm/v1/engine/core.py:2242-2252 | without a pause a resume is never refused; it is ignored exactly while the rank runs |
| DpEngine.StoppedRankStaysStopped | vllm/v1/engine/core.py:2226-2291 | a rank stopped for a pause is started by no sequence of wave messages and requests, of whatever wave, and stays ready to be resumed |
| DpEngine.WaveNeverDecreases | vllm/v1/engine/core.py:2226-2420 | no history of a rank takes it back to an earlier wave |
| DpEngine.WaveIsLargestTold | vllm/v1/engine/core.py:2226-2291 | whatever wave messages and requests a rank takes, its wave is the largest of its own and those it was told |
| DpEngine.WhatStartsARank | vllm/v1/engine/core.py:2226-2291 | a stopped rank is started exactly by a wave message for a wave that is not over, and by a request sent in one that is, unless it is paused |
| DpEngine.LateRequestRestarts | vllm/v1/engine/core.py:2226-2240 | a request sent before the wave ended that arrives after starts the next wave |
| DpEngine.ThrottleAdmitsOnce | vllm/v1/engine/core.py:2310-2317 | of an interval of consecutive steps exactly one admits new prefills, and the first step of a wave does |
| DpProtocol.StepKeepsRankLockstep | vllm/v1/engine/core.py:2403-2407 | a step keeps the counter in lockstep and enters the all-reduce exactly at every 32nd |
| DpProtocol.SteppingGoesOn | vllm/v1/engine/core.py:2403-2407 | after a forward pass a rank runs on, or enters the all-reduce at every 32nd |
| DpProtocol.LeaveKeepsRankLockstep | vllm/v1/engine/core.py:2346-2420 | leaving the all-reduce, with or without a reset, keeps the counter in lockstep |
| DpProtocol.SyncsMeetInStep | vllm/v1/engine/core.py:2346-2420 | in every run total steps of two ranks differ by at most 32, and ranks inside the same all-reduce have the same counter |
| DpProtocol.RunKeepsLockstep | vllm/v1/engine/core.py:2320-2420 | every reachable state keeps each rank counter equal to the common base plus its steps since its last all-reduce |
| DpProtocol.ThrottleDecisionsAgree | vllm/v1/engine/core.py:2310-2317 | at equal step indices, at any two moments of a run, two ranks take the same throttle decision |
| DpPause.RunKeepsSafe | vllm/v1/engine/core.py:2208-2224 | with a client that resumes only what it has paused and waits for all answers, every reachable state is in one of five phases of the two-phase pause |
| DpAnyClient.NoStaleDiscard | vllm/v1/engine/core.py:2208-2291 | in every run, whatever the client does, no rank steps with wave messages enabled while another still discards them |
| DpAnyClient.RunKeepsAgreement | vllm/v1/engine/core.py:2208-2265 | in every run a rank in the resume barrier has stopped and listens, and all ranks outside it agree on whether wave messages are discarded |
| DpAnyClient.ResumeStartsIff | vllm/v1/engine/core.py:2257-2265 | in every run a rank that leaves the resume barrier runs if and only if some rank had unfinished work when all of them were in it, and listens to wave messages again |
| DpAnyClient.LeavingDecides | vllm/v1/engine/core.py:2346-2420 | in every run a rank that leaves the all-reduce runs on if and only if unfinished work was reported when all were inside, and ends its wave otherwise; the pause is agreed on if and only if every rank was pending |
| DpAnyClient.TakingResume | vllm/v1/engine/core.py:2242-2255 | in every run a rank that runs or is pending answers a resume at once and stays as it is, and any other enters the barrier unpaused and listening |
| DpAnyClient.AnswersAreCounted | vllm/v1/engine/core.py:2208-2265 | in every run of any client, of the commands a rank has taken exactly the pauses it has yet to answer and a resume in its barrier are unanswered |
| DpAnyClient.RunIsHistory | vllm/v1/engine/core.py:2208-2420 | between resumes a rank's flags in any run are what its own history of pauses, messages, steps and all-reduce results makes of them, so that results over histories hold in runs |
| DpMixing.NeverMixesIff | vllm/v1/engine/core.py:2242-2265 | for two or more ranks no run ever has one rank waiting in the state all-reduce and another in the resume barrier if and only if the client resumes only what it has paused and waits for all answers |
| DpMixing.UnpausedResumeMixes | vllm/v1/engine/core.py:2250-2260 | a run that mixes the two collectives after a resume without a pause |
| DpMixing.ImpatientResumeMixes | vllm/v1/engine/core.py:2242-2260 | a run that mixes them after a pause, a resume issued before the pause is answered, and a pause: one rank refuses the resume, the other takes it after the agreement |
| DpPause.ResumeIsHonoured | vllm/v1/engine/core.py:2242-2252 | a resume after an answered pause is neither refused nor ignored on any rank |
| DpPause.AnsweredPauseMeansStopped | vllm/v1/engine/core.py:2208-2224 | once every rank has answered a pause, every rank has stopped, has no work and discards START_DP_WAVE |
| DpPause.ConsensusMeansAllPending | vllm/v1/engine/core.py:2409-2418 | every consensus was reached by an all-reduce with all ranks inside and pending |
| DpPause.OnlyConsensusEndsAPause | vllm/v1/engine/core.py:2409-2418 | the pending flag falls, or the discard flag rises, only when a rank leaves such an all-reduce |
| DpProgress.PauseCanFinish | vllm/v1/engine/core.py:2208-2420 | from every reachable state whose last command is a pause the ranks can go on by themselves, woken by wave messages only where one has stopped before the agreement, until every rank has answered |
| DpProgress.StrandedNeedsWave | vllm/v1/engine/core.py:2403-2420 | while no wave message reaches a rank that took the pause and stopped before the agreement, the pause is not answered by every rank, whatever else happens |
| DpProgress.PauseCanStrand | vllm/v1/engine/core.py:2346-2420 | a run that strands a rank so: the all-reduce ends the wave after one rank took the pause and before another did |
| DpProgress.ResumeCanFinish | vllm/v1/engine/core.py:2242-2265 | from every reachable state whose last command is a resume the ranks can go on by themselves until every rank has answered and listens again |
| DiskSnapshot.Save | vllm/device_allocator/disk_snapshot.py:33-109 | a save writes exactly the payload of all regions and their entries, syncs it, keeps unsynced bytes below 64 MiB plus one buffer, and leaves no file when it fails; without faults it succeeds whenever buffer, sizes and free space allow; which error a failing save returns |
| DiskSnapshot.SaveRegions | vllm/device_allocator/disk_snapshot.py:54-85 | the region loop: entries, offsets and digests of what has been written, with the flush bound |
| DiskSnapshot.SaveRegion | vllm/device_allocator/disk_snapshot.py:57-76 | one region written through the buffer, chunk by chunk, with its digest |
| DiskSnapshot.WriteAll | vllm/device_allocator/disk_snapshot.py:65-70 | short writes are continued until the chunk is in the file; no progress is an error |
| DiskSnapshot.EntriesTile | vllm/device_allocator/disk_snapshot.py:54-85 | the entries tile 0 up to the total without gap, and each points at its own bytes |
| DiskSnapshot.PayloadPart | vllm/device_allocator/disk_snapshot.py:54-85 | where in the payload a region lies |
| DiskSnapshot.RestoreRegion | vllm/device_allocator/disk_snapshot.py:111-136 | a restore that succeeds has put the saved bytes back whatever became of the file; it touches no other memory, changes nothing for an unknown address or a wrong length, and without faults succeeds exactly when the file still holds those bytes; which error a failing restore returns |
| DiskSnapshot.RestoreBytes | vllm/device_allocator/disk_snapshot.py:121-134 | the copying loop: memory gets what the file holds and the digest is that of the same bytes |
| DiskSnapshot.RoundTrip | vllm/device_allocator/disk_snapshot.py:33-136 | save then restore gives every region back, for any distinct addresses, any two nonempty buffers and any short transfers; without faults it succeeds |
| DiskSnapshot.RestoreAll | vllm/device_allocator/disk_snapshot.py:111-136 | restoring all regions of an intact snapshot into arbitrary memory |
| DiskSnapshot.SavedIsIntact | vllm/device_allocator/disk_snapshot.py:33-109 | what was saved is what a restore needs |
| DiskSnapshot.EarlierRegionsSurvive | vllm/device_allocator/disk_snapshot.py:111-136 | restoring a region does not spoil one restored before, even if they overlap |
| DiskSleep.DiskSleepBackend.Prepare | vllm/device_allocator/disk_sleep.py:61-86 | preparing keeps an existing snapshot, otherwise covers every mapped allocation outside the KV cache; nothing is unmapped |
| DiskSleep.DiskSleepBackend.CancelPreparation | vllm/device_allocator/disk_sleep.py:88-93 | cancelling drops the snapshot only while running, otherwise it is refused |
| DiskSleep.DiskSleepBackend.Suspend | vllm/device_allocator/disk_sleep.py:95-113 | suspending releases only what a snapshot covers, notes every release after the snapshot, and on success leaves everything unmapped; it succeeds if and only if no call fails, and a worker that is suspended already stays as it is |
| DiskSleep.DiskSleepBackend.MapAndRestore | vllm/device_allocator/disk_sleep.py:129-139 | a fault while restoring leaves the allocation unmapped again |
| DiskSleep.DiskSleepBackend.RestoreAndSynchronise | vllm/device_allocator/disk_sleep.py:127-144 | the restores and the final synchronisation succeed if and only if no call fails |
| DiskSleep.DiskSleepBackend.RestoreSelected | vllm/device_allocator/disk_sleep.py:127-139 | only sleeping allocations change whose tag is listed, and success, which is that no call fails, leaves all listed ones mapped |
| DiskSleep.DiskSleepBackend.Resume | vllm/device_allocator/disk_sleep.py:115-160 | no weight is lost; allocations whose tag is not listed stay as they are, and success, which is that no call fails, maps all listed ones; a full resume that succeeds ends running with everything mapped and no snapshot; a failed or partial one keeps the snapshot |
| DiskSleep.RegionsCover | vllm/device_allocator/disk_sleep.py:70-83 | a snapshot of resident allocations covers them all with their original bytes |
| DiskSleep.NewIsSafe | vllm/device_allocator/disk_sleep.py:44-47 | a new worker over mapped allocations is running with its weights safe |
| DiskSleep.RunOperations | vllm/device_allocator/disk_sleep.py:61-160 | any sequence of prepare, cancel, suspend and resume with any faults keeps every weight safe and releases nothing without a snapshot held; a successful full resume at the end leaves all resident |
| DiskComposition.SavedIsRegions | vllm/device_allocator/disk_sleep.py:70-83 | the bytes a saved snapshot stands for are those the state machine records when it prepares |
| DiskComposition.RestoreSaved | vllm/device_allocator/disk_snapshot.py:111-136 | a restore from disk fails or yields the recorded bytes of its address |
| DiskSleep.DiskSleepBackend.UnmapAll | vllm/device_allocator/disk_sleep.py:101-113 | each release is noted once, and as many are noted as allocations have fallen asleep |
| SleepJournal.ReleasesFollowPreparations | vllm/v1/engine/auto_sleep.py:461-475 | the two-phase rule over a journal: from a point without snapshots, every release is preceded by a successful preparation of every rank |
| TwoPhaseSleep.Engine.PrepareRanks | vllm/v1/engine/auto_sleep.py:268-275 | every rank is asked once and none is unmapped; each has a snapshot if and only if its call succeeds; success means every rank has one |
| TwoPhaseSleep.Engine.CancelRanks | vllm/v1/engine/auto_sleep.py:278-283 | cancelling makes every rank resident without a snapshot |
| TwoPhaseSleep.Engine.SuspendRanks | vllm/device_allocator/disk_sleep.py:95-113 | every rank is tried; those that fail no call are suspended, success is that none fails, and no snapshot is lost |
| TwoPhaseSleep.Engine.ResumeRanks | vllm/device_allocator/disk_sleep.py:115-160 | every rank is tried; those that fail no call are resident, and success is that none fails |
| TwoPhaseSleep.Engine.Rollback | vllm/v1/engine/auto_sleep.py:480-498 | every rank is resumed; it raises if and only if some rank fails a call made in it, and otherwise all are resident, the scheduler runs and the engine is awake |
| TwoPhaseSleep.Engine.SuspendOrRollBack | vllm/v1/engine/auto_sleep.py:475-498 | with every rank prepared all are suspended if and only if nothing fails; otherwise the rollback decides |
| TwoPhaseSleep.Engine.EngineSleep | vllm/v1/engine/core.py:933-969 | the scheduler pause is noted before any release, and the workers are suspended only then |
| TwoPhaseSleep.Engine.Sleep | vllm/v1/engine/auto_sleep.py:461-498 | every release on any rank comes after a successful preparation of every rank in this same call and with the scheduler paused; at the end all are suspended, or all are resident and the engine is awake, or it raised with the state sleeping and the scheduler paused; which of them is decided by the failing calls: suspended exactly if none fails, raised exactly if the preparation succeeded and some rank's last call, made in the rollback, failed |
| TwoPhaseSleep.Engine.Wake | vllm/v1/engine/auto_sleep.py:532-552 | a wake ends awake with all weights resident, or raises and stays asleep and paused, exactly if some rank fails a call |
| TwoPhaseSleep.Engine.Cycle | vllm/v1/engine/auto_sleep.py:461-552 | over any number of sleep cycles with retried wakes the same holds of every release, and all weights stay safe; without faults each cycle puts the engine to sleep and one attempt wakes it |
| AutoSleep.IdleHookArmsOnce | vllm/v1/engine/auto_sleep.py:334-361 | after the idle hook a sleepable engine has a timer, and the hook never arms a second one |
| AutoSleep.IdleHookFollowsEngine | vllm/v1/engine/auto_sleep.py:343-351 | while the engine sleeps the hook only registers itself again; an engine woken otherwise is taken for awake and its keeper stops |
| AutoSleep.IdleHoldsOffSleep | vllm/v1/engine/auto_sleep.py:353-361 | a long request does not use up the idle window: no poke starts anything until the timeout has passed since the timer was armed |
| AutoSleep.NotifyCompletesPauses | vllm/v1/engine/core.py:2077-2096 | an idle notification completes every sleep that waited for idleness |
| AutoSleep.ArrivalHoldsOffSleep | vllm/v1/engine/auto_sleep.py:363-402 | after an arrival the engine is awake and no poke before the timeout starts a sleep |
| AutoSleep.PokeStartsIff | vllm/v1/engine/auto_sleep.py:378-402 | a poke starts a sleep or exit exactly when the engine could sleep, has no requests and was inactive for the timeout, and otherwise touches only the timers |
| AutoSleep.WhatIsStarted | vllm/v1/engine/auto_sleep.py:399-402 | the process exits if and only if exiting is the configured target; otherwise the engine sleeps, with a keeper where configured, or is awake as before after a rollback |
| AutoSleep.EarlyPokeRearms | vllm/v1/engine/auto_sleep.py:389-398 | a poke before the timeout arms a fresh timer |
| AutoSleep.SecondPokeStartsNothing | vllm/v1/engine/auto_sleep.py:378-402 | a duplicate poke starts nothing more unless the first sleep was rolled back |
| AutoSleep.CancelStopsOnlyWaiting | vllm/v1/engine/auto_sleep.py:412-415 | cancelling stops exactly the current timer, and only if it has not run out |
| AutoSleep.SleepThenWake | vllm/v1/engine/auto_sleep.py:461-560 | sleeping and being woken by a request gives the state back, but for the clock and the timer |
| AutoSleepLoop.StartsGrow | vllm/v1/engine/auto_sleep.py:378-402 | only a poke whose conditions are met adds a start, in every step of the loop |
| AutoSleep.AutoSleepController.NotifyIdleStateCallbacks | vllm/v1/engine/core.py:1538-1546 | a snapshot of the callbacks is called once each; what registers itself again waits for the next notification |
| AutoSleepLoop.RunKeepsLoopOk | vllm/v1/engine/core.py:1488-1517 | every interleaving of messages, timers, pokes and signals keeps the loop invariant |
| AutoSleepLoop.SleepsAreJustified | vllm/v1/engine/auto_sleep.py:378-402 | every sleep or exit started without requests, without a shutdown request and at least the timeout after the last arrival |
| AutoSleepLoop.ExitsOnlyAsConfigured | vllm/v1/engine/auto_sleep.py:399-402 | in every run the process exits only where that is the configured target, by a justified start |
| AutoSleepLoop.NeverStuckAwake | vllm/v1/engine/auto_sleep.py:334-402 | whenever the loop blocks while it could sleep, a timer or poke is on its way; the idle callback is registered exactly once; the keeper runs only while sleeping |
| AutoSleepLoop.IdleEngineCanSleep | vllm/v1/engine/auto_sleep.py:334-402 | from every such blocked state, time and the pending timer alone lead to a started sleep, or to the exit where that is the target |
| AutoSleepMessages.MessagesInOrder | vllm/v1/engine/core.py:1488-1517 | in every run no message is lost, doubled or overtaken; each poke and each signal leaves one wakeup |
| AutoSleepMessages.ClockRuns | vllm/v1/engine/auto_sleep.py:353-376 | in every run the clock shows the time that has passed |
| AutoSleepMessages.TimerPokesOnce | vllm/v1/engine/auto_sleep.py:448-451 | in every run no timer pokes twice |
| AutoSleepMessages.NothingStartsAfterSignal | vllm/v1/engine/auto_sleep.py:378-402 | after a shutdown signal nothing is started, whatever pokes are queued |
| AutoSleepMessages.ShutdownIsNoticed | vllm/v1/engine/core.py:1488-1517 | the loop never waits on an empty queue when it should shut down, and steps only with work or to shut down |
| AutoSleepMessages.StepsBeforeWaiting | vllm/v1/engine/core.py:1488-1517 | a loop that has left its input loop makes a step before it waits again, however many messages it handles |
| AutoSleepMessages.ArrivalIsServedIff | vllm/v1/engine/auto_sleep.py:363-376 | a request is queued on an awake engine, which is woken for it; a failed wake kills the loop asleep; during a shutdown nothing changes |
| AutoSleepMessages.ManualSleepHolds | vllm/v1/engine/core.py:933-969 | after a manual sleep no poke and no idle hook starts or arms anything; it waits for idleness exactly if there is work |
| AutoSleepMessages.ManualWakeIsNoticed | vllm/v1/engine/auto_sleep.py:343-351 | a manual wake that succeeds makes the controller active at the next idleness, with a timer and no keeper |
| AutoSleepMessages.ShutdownIgnoresCommands | vllm/v1/engine/core.py:1605-1660 | requests and commands that arrive during a shutdown change nothing |
| AutoSleepMessages.RequestWakesEngine | vllm/v1/engine/auto_sleep.py:363-376 | from every reachable blocked state without queued messages a request makes the loop step with it on an awake engine |
| AutoSleepMessages.UnusedEngineSleeps | vllm/v1/engine/auto_sleep.py:334-402 | an engine that never gets a request sleeps, or exits, once the timeout has passed |
| AutoSleepMessages.FinishedEngineSleeps | vllm/v1/engine/auto_sleep.py:334-402 | after a step that leaves no work the engine sleeps or exits without any further message |
| RespawnGate.OneRespawnAtATime | vllm/v1/engine/async_llm.py:1299-1340 | at most one respawn is unfinished at any time, and no cycle makes more attempts than allowed |
| RespawnGate.EnteringIsSound | vllm/v1/engine/async_llm.py:1299-1320 | a request passes only with an engine up, otherwise it waits for an unfinished respawn, never a finished one; leaving or cancelling changes no respawn |
| RespawnGate.OpenIff | vllm/v1/engine/async_llm.py:1298-1309 | at every moment of every run the gate is open if and only if an engine is up and no failed cycle is still owed a successful one |
| RespawnGate.FinishOpensGateIff | vllm/v1/engine/async_llm.py:1400-1413 | when a respawn finishes the gate is open if and only if every exit since its successful attempt was followed by another; without an exit the next request passes |
| RespawnGate.AttemptsAreCounted | vllm/v1/engine/async_llm.py:1356-1413 | every respawn records the attempts really begun for it, never more than allowed |
| RespawnGate.AttemptsEndOnce | vllm/v1/engine/async_llm.py:1361-1413 | every attempt that fails or succeeds is the one begun last, with no other step of its respawn in between |
| RespawnGate.AnswerIsFinal | vllm/v1/engine/async_llm.py:1332-1340 | a request gets one answer, and a cancelled one is cancelled whatever becomes of its respawn |
| RespawnGate.WaitersPassAfterSuccess | vllm/v1/engine/async_llm.py:1317-1340 | a request that waited leaves normally only after its respawn finished successfully, with an error only after it gave up |
| RespawnGate.PasserFindsEngineIff | vllm/v1/engine/async_llm.py:1332-1413 | a request that passes after waiting finds an engine up if and only if every exit since its respawn's successful attempt was followed by another successful attempt |
| RespawnGate.LatePasserFindsNoEngine | vllm/v1/engine/async_llm.py:1332-1413 | a run in which a request joins between the successful attempt and the end of the respawn, after another exit, and passes without an engine |
| RespawnGate.FailureKeepsGateClosed | vllm/v1/engine/async_llm.py:1405-1429 | after a failed cycle every later request meets a closed gate until a respawn succeeds |
| RespawnGate.WaitingStarted | vllm/v1/engine/async_llm.py:1299-1320 | a waiter has waited for the same respawn since it entered through the closed gate |
| RespawnGate.FinishedBetween | vllm/v1/engine/async_llm.py:1342-1429 | a respawn that was unfinished and is done has taken its own last step in between |
| RespawnGate.AsyncLLM.RespawnWithRetries | vllm/v1/engine/async_llm.py:1356-1429 | the loop stops at the first success, the last attempt or the end of the budget, and records which |
| BatchQueue.EngineCore.AppendLeft | vllm/v1/engine/core.py:714-722 | a full bounded deque drops its back entry without a word, and what remains |
| BatchQueue.EngineCore.StepWithBatchQueue | vllm/v1/engine/core.py:677-774 | one call: what is processed is the oldest batch in flight, nothing is lost, the queue has room again, and when and how the call ends early |
| BatchQueue.EngineCore.ScheduleNext | vllm/v1/engine/core.py:684-728 | the scheduling half, with the exact condition of an early return |
| BatchQueue.EngineCore.FinishOldest | vllm/v1/engine/core.py:730-774 | the finishing half: the oldest batch is processed, a deferred one is sampled and queued after it |
| BatchQueue.RunSteps | vllm/v1/engine/core.py:660-774 | over any run batches reach the scheduler once each in scheduling order, deferred ones included, and every batch with tokens is sampled once in that order; a run ends early only by a failed model or a deferred batch with nothing in flight |
| LoadBalancer.DPLBClient.Scan | vllm/v1/engine/core_client.py:1611-1639 | the scan returns the first engine of the rotated order with the least score |
| LoadBalancer.DPLBClient.GetCoreEngine | vllm/v1/engine/core_client.py:1603-1654 | which engine is chosen, what is counted, how the scan start rotates, and that the counters stay exact if and only if the id is not live already |
| LoadBalancer.DPLBClient.ProcessEngineOutputs | vllm/v1/engine/core_client.py:1667-1674 | finished ids leave the map and each engine gives back as many places as it had of them; unknown and repeated ids are ignored |
| LoadBalancer.AddConservesIffNew | vllm/v1/engine/core_client.py:1651-1653 | counting a request keeps the counters exact if and only if its id is new |
| LoadBalancer.FinishConserves | vllm/v1/engine/core_client.py:1672-1674 | giving a place back keeps the counters exact |
| LoadBalancer.FirstBestIsLeast | vllm/v1/engine/core_client.py:1613-1639 | no engine scores lower than the chosen one |
| LoadBalancer.ScoreAtEnds | vllm/v1/engine/core_client.py:1628-1639 | without waiting requests or up to half usage the score is the larger count; at full usage every waiting request counts for three more |
| LoadBalancer.PenaltyIsLinear | vllm/v1/engine/core_client.py:1630-1636 | between half and full usage the penalty grows in proportion |
| LoadBalancer.ScoreGrows | vllm/v1/engine/core_client.py:1618-1636 | more requests, more waiting or more cache use never lower a score, and above half usage more waiting raises it |
| LoadBalancer.TiesGoRound | vllm/v1/engine/core_client.py:1613-1639 | among equal scores the first from the scan start on is taken |
| LoadBalancer.RoutingKeepsLevel | vllm/v1/engine/core_client.py:1610-1654 | routing one request keeps counts within one of each other when snapshots claim no more than the client |
| LoadRuns.BurstStaysLevel | vllm/v1/engine/core_client.py:1603-1654 | at every moment of a burst, however snapshots that claim no more than the client interleave, in-flight counts of two engines differ by at most one |
| LoadRuns.RunTraffic | vllm/v1/engine/core_client.py:1603-1674 | over any traffic the client goes through a history in which every request is routed, every output taken back and every snapshot applied; at the end the live ids are those of the traffic, and the counters are exact if and only if no accepted request carried a live id |
| LoadRuns.ExactIffFresh | vllm/v1/engine/core_client.py:1651-1674 | at every moment of a history the counters are exact if and only if no accepted request so far carried a live id |
| LoadRuns.LiveIdsFollow | vllm/v1/engine/core_client.py:1651-1674 | the live ids follow from the traffic alone |
| LoadBalancer.ConservedHasNoExcess | vllm/v1/engine/core_client.py:1651-1674 | exact counters add up to the number of live requests |
| GdnPartition.ArgsortIsStablePermutation | vllm/v1/attention/backends/gdn_attn.py:326 | the stable argsort lists every position once, false before true, equal flags in order |
| GdnPartition.TokenIndicesAreClasses | vllm/v1/attention/backends/gdn_attn.py:320-329 | the two index sequences are the tokens of the two classes, request after request |
| GdnPartition.MixedBatchIsPartitioned | vllm/v1/attention/backends/gdn_attn.py:320-329 | others then speculative is a permutation of all tokens, increasing within each class |
| GdnPartition.CutGivesRequest | vllm/v1/attention/backends/gdn_attn.py:320-366 | the slice cut for each request by the offsets of its class is that request's original run of tokens |
| GdnPartition.CountsAddUp | vllm/v1/attention/backends/gdn_attn.py:268-294 | the three token counts are those of the classes and sum to the total; decodes and speculative decodes exclude each other |
| GdnPartition.ClassifiesByLength | vllm/v1/attention/backends/gdn_attn.py:273-294 | requests without tokens count nowhere, those with one are decodes unless there are speculative ones, all others are prefills |
| GdnPartition.ShortcutMatchesSortIff | vllm/v1/attention/backends/gdn_attn.py:296-309 | counting up replaces the sort if and only if the size limit does not cut the batch short |
| GdnPartition.FrontOffsetsSuffice | vllm/v1/attention/backends/gdn_attn.py:314-318 | with padding at the back the front of the batch offsets is the offsets of the speculative requests |
| GdnMetadata.Builder.Build | vllm/v1/attention/backends/gdn_attn.py:225-477 | the general construction returns the specified metadata, request after request in a mixed batch, whatever the buffers held; the visible buffer entries are that metadata |
| GdnMetadata.Builder.BuildMixed | vllm/v1/attention/backends/gdn_attn.py:320-369 | sorting the token flags and cutting at the counted number gives each class its requests' tokens, request after request |
| GdnMetadata.SortCutsAtCount | vllm/v1/attention/backends/gdn_attn.py:320-329 | the counted number of other tokens is where the two classes meet in the sorted order |
| GdnMetadata.Builder.StageAll | vllm/v1/attention/backends/gdn_attn.py:433-477 | staging fills and pads every visible slice |
| GdnMetadata.Builder.StageTokens | vllm/v1/attention/backends/gdn_attn.py:447-470 | token indices and padded offsets in the buffers |
| GdnMetadata.Builder.Stage | docker/speculative/sm75_gdn_metadata.py:12-28 | the kernel stores the row from the block of the last position on, the tokens, offsets, count and mask of one request |
| GdnMetadata.Builder.BuildFast | docker/speculative/sm75_gdn_metadata.py:62-79 | on eligible input the fast path returns what the general construction returns, with the same visible entries, in every cache mode |
| GdnMetadata.Builder.BuildInstalled | docker/speculative/sm75_gdn_metadata.py:92-105 | with the fast path installed the builder still returns what the general construction returns, on every input |
| GdnMetadata.StartsAgree | docker/speculative/sm75_gdn_metadata.py:17-19 | truncating and flooring division give the same start column, at length zero and everywhere else |
| GdnMetadata.StartHoldsLast | docker/speculative/sm75_gdn_metadata.py:16-20 | the start column is that of the block holding the last position in align mode, and the first otherwise |
| GdnMetadata.Roundings | docker/speculative/sm75_gdn_metadata.py:17-19 | the two divisions by their remainders |
| GdnMetadata.SpeculatesIff | vllm/v1/attention/backends/gdn_attn.py:233-252 | metadata is built for speculation if and only if some request has drafted a token |
| GdnMetadata.OutcomeIff | vllm/v1/attention/backends/gdn_attn.py:225-372 | which batches get metadata, and its counts, tokens and the presence of other requests |
| GdnMetadata.LookupInBounds | docker/speculative/sm75_gdn_metadata.py:52-57 | the eligibility test keeps every table read inside its row when lengths respect the maximum |
| GdnMetadata.OneRequest | vllm/v1/attention/backends/gdn_attn.py:225-317 | what the general construction computes for one uniform speculative request |
| GdnMetadata.PaddingIsInert | vllm/v1/attention/backends/gdn_attn.py:433-477 | replay sees each speculative request with its own row, beginning at the block of its last position, its own tokens and count, and every padding entry as empty on the null block |
| GdnMetadata.EagerRequestsAreWhole | vllm/v1/attention/backends/gdn_attn.py:296-318 | without a graph the speculative requests come first with their own offsets, rows and counts, and nothing else is listed |
| GdnMetadata.SpecRunsOwnIff | vllm/v1/attention/backends/gdn_attn.py:310-318 | in a batch of speculative requests only, staged or not, every speculative request finds its own tokens at its rank if and only if no request without drafts stands in front of one that has tokens |
| GdnMetadata.StagedMasksIff | vllm/v1/attention/backends/gdn_attn.py:433-445 | the staged masks mark exactly the speculative entries if and only if the requests without drafts are at the back |
| GdnMetadata.MixedRequestsAreWhole | vllm/v1/attention/backends/gdn_attn.py:320-372 | in a mixed batch every request, found at its rank, has its own tokens and its own state row or block, beginning at the block of its last position |
| GdnMetadata.StagedTokensAreAll | vllm/v1/attention/backends/gdn_attn.py:296-304 | the staged token indices are all tokens if and only if no limit cuts them short |
| GdnMetadata.PartsOf | vllm/v1/attention/backends/gdn_attn.py:310-369 | as many rows and counts are selected as there are speculative requests |
| PagedKv.KvBuffers.Compute | vllm/v1/attention/backends/flashinfer.py:1241-1272 | whatever earlier batches left, both copies of the buffers afterwards encode this batch |
| PagedKv.KvBuffers.CopyPages | vllm/v1/attention/backends/flashinfer.py:2648-2668 | the kernel programs, in any order, fill every request's slice with its table row |
| PagedKv.CopyRow | vllm/v1/attention/backends/flashinfer.py:2657-2668 | one program copies its row in blocks of 1024 and touches nothing else |
| PagedKv.KvBuffers.StoreOffsets | vllm/v1/attention/backends/flashinfer.py:1241-1251 | host and device offsets are the cumulative page counts |
| PagedKv.KvBuffers.StoreFill | vllm/v1/attention/backends/flashinfer.py:1264-1276 | host and device hold the fill of every last page |
| PagedKv.LookupFindsPage | vllm/v1/attention/backends/flashinfer.py:1241-1272 | looking up position p of request i finds block_table[i][p / page_size] for p below the length and nothing from there on |
| PagedKv.LengthsRecovered | vllm/v1/attention/backends/flashinfer.py:1264-1270 | pages and last fill give every sequence length back, zero included |
| PagedKv.PositionsCovered | vllm/v1/attention/backends/flashinfer.py:1403 | a position is in the sequence exactly when it is on a full page or within the last page's fill |
| DraftMasks.PackedRowDecodes | vllm/v1/attention/backends/flashinfer.py:112-123 | splitting sums of powers of two into 16-bit words decodes back to the mask, and no word overflows |
| DraftMasks.UniformMaskDecodes | vllm/v1/attention/backends/flashinfer.py:126-135 | the uniform mask is the attention relation, causal or not |
| DraftMasks.RaggedMaskDecodes | vllm/v1/attention/backends/flashinfer.py:138-153 | each row of the ragged mask is the attention relation of its own request |
| DraftMasks.EqualLengthsSameMask | vllm/v1/attention/backends/flashinfer.py:126-153 | for equal lengths the ragged mask is the uniform one repeated |
| DraftMasks.OmittedIff | vllm/v1/attention/backends/flashinfer.py:1050-1077 | with exact token counts the ragged form is omitted if and only if all lengths are equal or none exceeds one |
| DraftMasks.UniformRowsMatchIff | vllm/v1/attention/backends/flashinfer.py:1064-1070 | with padded token counts the uniform rows fit every request if and only if the empty requests are at the back |
| DraftMasks.WidthIsLargest | vllm/v1/attention/backends/flashinfer.py:1062-1064 | the query width bounds every length and, above one, is one of them |
| DraftMasks.NoTokensNoMask | vllm/v1/attention/backends/flashinfer.py:1050-1064 | the width is at least one, and without tokens there is no mask |
| DraftMasks.RowsAreTight | vllm/v1/attention/backends/flashinfer.py:112-123 | a packed row has the least number of 32-bit words |
| DraftMasks.UniformMeansFull | vllm/v1/attention/backends/flashinfer.py:1064-1070 | where the uniform form is chosen every request with tokens has the full width |
| DraftMasks.ChosenMaskIsRightIff | vllm/v1/attention/backends/flashinfer.py:1050-1103 | for every token count that covers the requests, every request reads its attention relation if and only if no request has more than one token, the empty requests are at the back, the requests with tokens differ in number, or the token count is not that of full requests throughout |
| DraftMasks.PaddedMiddleMisread | vllm/v1/attention/backends/flashinfer.py:1064-1070 | an input, lengths 2, 0, 2 with six padded tokens, for which the uniform form is chosen and read wrongly |
| DraftMasks.MaskCache.GetDecodeMask | vllm/v1/attention/backends/flashinfer.py:1079-1103 | the cached mask is the one a fresh construction gives, and no cached mask changes |
| Bf16.RoundsToNearestEven | docker/speculative/vllm/model_executor/models/dflash_sm70.py:23-28 | for every number the trick gives the nearest bfloat16 value, ties to even |
| Bf16.RoundingDecides | docker/speculative/vllm/model_executor/models/dflash_sm70.py:23-28 | the addition never wraps for a number, keeps the sign, and carries exactly when the rule rounds up |
| Bf16.OverflowsAtMidpoint | docker/speculative/vllm/model_executor/models/dflash_sm70.py:23-28 | the result is infinite exactly at and above the midpoint of the overflow rule |
| Bf16.RoundingMonotone | docker/speculative/vllm/model_executor/models/dflash_sm70.py:23-28 | rounding keeps the order of values |
| Bf16.RoundingIdempotent | docker/speculative/vllm/model_executor/models/dflash_sm70.py:23-28 | rounding twice is rounding once, and bfloat16 values are fixed |
| Bf16.NaNSurvivesIff | docker/speculative/vllm/model_executor/models/dflash_sm70.py:23-28 | for which NaN patterns the trick still gives a NaN, and what it gives for the others |
| Bf16.ValuesAreLinear | docker/speculative/vllm/model_executor/models/dflash_sm70.py:23-28 | between neighbouring bfloat16 magnitudes binary32 values are evenly spaced |
| ShardedTopK.MaskPadding | docker/speculative/vllm/model_executor/models/qwen3_dflash2.py:374-376 | the padded tail becomes minus infinity and nothing else changes |
| ShardedTopK.ShardedIsGlobal | docker/speculative/vllm/model_executor/models/qwen3_dflash2.py:370-385 | the selection from the gathered selections is a top-k of the unpadded vocabulary, with distinct, correctly offset ids, for any tie-breaking |
| ShardedTopK.ShardedValuesAreGlobal | docker/speculative/vllm/model_executor/models/qwen3_dflash2.py:370-385 | its values are, place by place, those of any global top-k |
| ShardedTopK.TopKValuesUnique | docker/speculative/vllm/model_executor/models/qwen3_dflash2.py:377 | top-k values do not depend on how ties are broken |
| ShardedTopK.NoPaddingSelected | docker/speculative/vllm/model_executor/models/qwen3_dflash2.py:374-385 | no padding is selected when the vocabulary has k tokens |
| ShardedTopK.EntriesDiffer | docker/speculative/vllm/model_executor/models/qwen3_dflash2.py:378 | gathered entries that are not padding carry different ids |
| GroupedConv.GroupedConvolution | docker/speculative/vllm/model_executor/models/qwen3_dflash2.py:43-63 | the accumulation over shifted and masked taps computes the block-local convolution |
| GroupedConv.OutputEntry | docker/speculative/vllm/model_executor/models/qwen3_dflash2.py:43-63 | an output entry is the sum over the rows of its block at distances below `taps`, each times its base coefficient plus the receiving row's correction for the channel's group |
| GroupedConv.PositionIsRemainder | docker/speculative/vllm/model_executor/models/qwen3_dflash2.py:55-59 | the masked position equals the remainder, for every block size |
| GroupedConv.BlocksDoNotMix | docker/speculative/vllm/model_executor/models/qwen3_dflash2.py:54-63 | a row's output depends on no row of another block and on no later row |
| GroupedConv.ConvScales | docker/speculative/vllm/model_executor/models/qwen3_dflash2.py:43-63 | one factor on all rows passes through the convolution |
| GroupedConv.RowFactorsDoNotPass | docker/speculative/vllm/model_executor/models/qwen3_dflash2.py:43-63 | different factors on the rows of a block do not pass |
| ScaledTransport.DivisorIsLeast | docker/speculative/vllm/model_executor/models/dflash_sm70.py:56-60 | a power of two is at least the row divisor if and only if dividing by it bounds every entry by 32752 |
| ScaledTransport.MlpRowTransports | docker/speculative/vllm/model_executor/models/dflash_sm70.py:296-300 | the scaled feed-forward row is the plain one over 256, with the same rounding points |
| ScaledTransport.ScaleOutput | docker/speculative/vllm/model_executor/models/dflash_sm70.py:177-208 | the in-place output scaling and the two rejected inputs, which leave the output as it was |
| ScaledTransport.AttentionTransports | docker/speculative/vllm/model_executor/models/qwen3_dflash.py:286-290 | the scaled attention output is the plain one over 256 |
| ScaledTransport.FinishTransports | docker/speculative/vllm/model_executor/models/qwen3_dflash2.py:118-121 | the second convolution passes the factor on |
| ScaledTransport.AddResidualTransports | docker/speculative/vllm/model_executor/models/dflash_sm70.py:103-108 | adding the scaled row to the residual gives the plain residual |
| ScaledTransport.LayerTransports | docker/speculative/vllm/model_executor/models/qwen3_dflash2.py:181-201 | one layer keeps the residual streams equal |
| ScaledTransport.ResidualStreamsAgree | docker/speculative/vllm/model_executor/models/qwen3_dflash2.py:181-201 | after any number of layers the residual stream is that of the unscaled model |
| ScaledTransport.OutputsAgree | docker/speculative/vllm/model_executor/models/qwen3_dflash.py:700-710 | the model output is that of the unscaled model |
| ScaledTransport.BiasCancelsIff | docker/speculative/vllm/model_executor/models/qwen3_dflash.py:286-291 | with a bias in the output projection the scaling cancels if and only if the bias is zero |
| DraftNetwork.ScaledModelIsNetwork | docker/speculative/vllm/model_executor/models/qwen3_dflash2.py:181-201 | with exact rounding the scaled model, with residual additions put off into the next normalisation, is a residual network of attention and gated feed-forward blocks |
| DraftNetwork.ExactSwiGlu | docker/speculative/vllm/model_executor/models/dflash_sm70.py:46-53 | the first half of a row times its own sigmoid times the second half |
| DraftNetwork.NormalisesMeanSquare | docker/speculative/vllm/model_executor/models/dflash_sm70.py:110-115 | a normalised row is the row times the factor that brings its mean square, with eps, to one, times the weights |
| DraftNetwork.PrepareMixes | docker/speculative/vllm/model_executor/models/qwen3_dflash2.py:112-116 | the first convolution mixes rows with corrections computed from the receiving row |
| DraftNetwork.FinishMixes | docker/speculative/vllm/model_executor/models/qwen3_dflash2.py:118-121 | the second mixes them with corrections from what the first saw in that row |
| FusedProjection.PartIsLayers | docker/speculative/vllm/model_executor/models/qwen3_dflash.py:492-512 | what the fused weight and bias hold at a layer's key or value row is that row of the layer |
| FusedProjection.ContextKv.Project | docker/speculative/vllm/model_executor/models/qwen3_dflash.py:550-574 | the view of the fused projection is each layer's own key or value projection |
| FusedProjection.PositionsLineUp | docker/speculative/vllm/model_executor/models/qwen3_dflash.py:653-668 | every flattened key row is rotated with its own token's position |
| FusedProjection.IndexSplits | docker/speculative/vllm/model_executor/models/qwen3_dflash.py:566-570 | where the view finds a layer, side, head and entry |

## Left out

- DpProtocol.SyncsMeetInStep: shutdown, elastic expert-parallel scaling and the contents of wave messages to the coordinator are not modelled; messages may arrive at any time.
- DpPause.RunKeepsSafe: holds for a client that resumes only what it has paused and waits for all answers; `DpMixing.NeverMixesIff` shows that both are needed, and `DpAnyClient.RunKeepsAgreement` is what holds without them.
- DiskSnapshot.Save: the manifest, file-page hints and directory names are left out; a write to the device or a short transfer is a parameter.
- DiskSleep.DiskSleepBackend.Prepare: the test for a RAM-backed path is one of the possible faults; `DiskComposition` connects the recorded bytes with the snapshot on disk.
- TwoPhaseSleep.Engine.Sleep: the pause completes at once, as with one data-parallel rank without work; `executor.wake_up` is taken to resume every worker completely.
- AutoSleep.AutoSleepController.OnWakeupPoke: an in-process engine core, which has no exit and stays active, is left out.
- AutoSleepLoop.SleepsAreJustified: timers carry no deadline and may run out at any time, which allows more interleavings than a clock does.
- RespawnGate.WaitersPassAfterSuccess: does not claim that requests survive an exit; the output thread stops after its last message.
- RespawnGate.OneRespawnAtATime: speaks of respawn tasks; a launch thread may outlive its cancelled coroutine.
- BatchQueue.RunSteps: grammar bitmasks, draft-token updates and aborts are not modelled; a deferred batch with nothing in flight ends the run with the error of an empty queue.
- LoadRuns.BurstStaysLevel: scores are real numbers and counts stay below `sys.maxsize`; explicit ranks are not negative.
- GdnMetadata.Builder.Build: a batch without drafts is split by code that is not part of this model, and the chunk and convolution metadata of prefills are left out; the gather of align mode reads the columns the staging kernel reads.
- GdnMetadata.Builder.BuildFast: device placement, dimensions and strides are one flag.
- PagedKv.KvBuffers.Compute: offsets stay below the 32-bit limit because pages fit the buffer; the decode-context-parallel adjustment of lengths is left out.
- DraftMasks.ChosenMaskIsRightIff: the kernels that read the masks are foreign code; what they read is taken from the mask layout.
- Bf16.NaNSurvivesIff: the trick does not promise to keep every NaN.
- ShardedTopK.ShardedIsGlobal: the final multiplier and soft cap are left out; logits are finite.
- GroupedConv.GroupedConvolution: arithmetic is exact, and the shifts fit the number of rows, as the source's padding needs.
- ScaledTransport.OutputsAgree: arithmetic between the rounding points is exact, with real numbers; half-precision transport is not rounded; attention up to its output projection is any function of the rows.
- FusedProjection.ContextKv.Project: normalisation, rotation and the cache insert are left out.
- Sockets, message encoding, handshakes, process start, logging, configuration, monitor pages, cascade attention and kernels written in other languages are not modelled.
