# MeshML: distributed training, verified

MeshML trains one model on many workers. A dataset is cut into shards and batches; the task
orchestrator leases batches to workers, pass after pass, until the job has seen the dataset as
often as asked; a parameter server applies the workers' gradients; a loop uploads checkpoints to a
registry that serves them. This project models these services in Dafny and proves what they
promise together: a completed job trained every sample exactly as often as requested, if and only if
no handler was cut between counting an epoch and starting the next, provided that results come from
the workers that hold the batches.

`dafny verify dfyconfig.toml` checks everything.

## Structure

- `Protocol`: the lease and epoch protocol of the orchestrator as a step relation. A step is one
  block that runs without awaiting or one committed transaction, and handlers suspended between
  blocks are part of the state. `ProtocolSafety` is the invariant under arbitrary results,
  `ProtocolLease` the sharper one when results come from lease holders, `ProtocolVerdicts` terminal
  statuses and failure budgets, `ProtocolTheorems` the results about whole runs, `ProtocolRuns` runs
  that exist, completing ones and failing ones. `Orchestrator` holds the services as classes that
  change their state in place, each block proved to be its step.
- `Sharding`, `Apportionment`, `Quantiles`, `DatasetSharding`, `Labels`: splitting a dataset. `BatchIds`,
  `Batches`: cutting shards into batches and persisting them. `EndToEnd` joins them with the protocol.
- `LoadBalancing`, `LoadBalancingWorstCase`, `Distribution`, `DistributionTheorems`: which worker gets
  which batch. `Ledger`, `LedgerTheorems`, `LedgerMoves`: downloads, failures and reassignment afterwards.
- `ParameterServer`, `TrainingRuns`, `TrainingBounds`: versions, snapshots and momentum SGD.
  `Persistence`, `PersistenceTheorems`: the upload loop racing with pushes, and downloads.
  `Checkpoints`, `CheckpointTheorems`, `CheckpointCollisions`: checkpoint retention and restoring.
- `JobQueue`, `JobQueueTheorems`: the Redis job queue and its indices.
- `Collections`, `Sorting`: sums, counts, permutations and stable sorting.

`OrchestratorEffects`, `JobQueueEffects`, `LedgerEffects`, `DistributionEffects`, `ShardingEffects` and
`UpdateRule` say what the operations do, row by row and number by number, without the functions the
operations are specified by.

Classes change their fields the way the services do; each method is proved equal to a function on
values, and the theorems are about those functions.

## Assumptions

- Arithmetic is exact: no rounding of floats, no wrap-around. A tensor stands for one of its
  entries, since every operation of the update is element-wise. `exp(-lambda * s)` is
  `Power(damping, s)` with `damping = exp(-lambda)`.
- A committed transaction and a stretch of code without `await` are atomic. The two counting
  queries of one comparison are one step, because the rows of a job are fixed once it is launched.
- A handler may be cut at every `await`, by its stream closing or by a failing statement; what it has
  not committed is rolled back, and the lock it holds is freed.
- Identifiers of jobs, batches, handlers and workers are fresh or distinct where the services create
  them so; worker identifiers are not empty. `RetentionPolicy` and `LoadRestores` assume fresh
  checkpoint identifiers, `CheckpointCollisions` does not. The job row and its batch rows appear
  together. Assignment keys of the distributor are pairs, not joined strings.
- `REDIS_PARAM_VERSION_HISTORY` is at least 1. The checkpoint retention is not negative.
- Shuffles are driven by arbitrary draws, Dirichlet proportions are arbitrary positive numbers,
  completion order of thread pools and iteration order of sets are arbitrary.
- The labels of a dataset are all floats, all whole numbers or all text.
- Clock readings are parameters; the clock of checkpoint creation does not go back.

## Where the code differs from what is said about it

- The connection of a worker closing cancels the handler of its last result. Between the count of an
  epoch and the commit of the reset this costs the job a pass (`CutResetLosesPass`); each such cut
  costs exactly one, and in the lease regime nothing else does (`ExactlyTargetPasses`). Between a
  third failure and the failing of the job it leaves the job running with a failed batch
  (`CutFailingSparesJob`), exactly when no other handler is about to fail the job
  (`DoomLostExactly`, `SpentDoomedThroughout`).
- `release_job_from_worker` promises a retry. `can_retry` needs the status FAILED but is tested while
  the job is RUNNING, so running jobs fail at the first release (`ReleaseNeverRetries`).
- `get_next_job` looks at the head of each queue only. A job that failed validation is never removed
  from its queue, and a job that failed while running is put back by its release, so later jobs of
  that priority starve (`BuriedExactly`, `LaterJobsStarve`); no such job is queued exactly as long as
  neither happens (`NothingBuriedExactly`).
- `assign_job_to_worker` drops the shard numbers: it sets them on a copy that is never stored
  (`ShardNumbersDropped`).
- A pending job that is made waiting by `update_job_status` stays in the set of jobs to be validated,
  and the cleanup may fail it while it runs (`BypassedJobFailsWhileRunning`); the set is right
  throughout exactly when no operation goes past a validation (`PendingExactlyThen`).
- `is_complete` stays false for ever for a worker that gets back a batch it had before
  (`ReturnedBatchNeverCompletes`).
- Automatic reassignment may take a batch from a worker that has completed it
  (`LateFailureMovesCompletedBatch`, `FailureAfterCompletionExposes`). `TakesCompletedExactly` says
  when a call does, and `NeverExposedExactly` which conduct of the callers rules it out: no failure
  that counts for a batch its holder has completed, no completion by the holder and no return to a
  worker that has completed it while another worker's failure of it may be retried.
- Generated checkpoint identifiers have the resolution of a second, and deleting by identifier takes
  the first match, so retention may take a best checkpoint in place of an automatic one
  (`SameSecondTakesBest`); it does no such harm exactly when no best or final checkpoint shares its
  identifier with one that is to go (`ProtectedStayExactly`, `ProtectedKeptThroughout`). What can be
  loaded under a generated identifier is right all the same (`GeneratedLoadOwn`); under a given one
  it may not be (`ReusedIdKeepsOwnExactly`).
- `ShardDataset` does not refuse a negative batch size: it reports success with batches that hold no
  sample (`NegativeSizeLosesSamples`).
- `_split_batch_scope` does not invert `_scoped_batch_id` for scopes that contain a double
  underscore or end in an underscore (`SplitRoundTrip`).
- `assign_batches_to_workers` with one shard per worker leaves the batches of surplus shards to
  nobody (`ShardPlanComplete`).
- A round of the persistence loop that fails between its upload and its mark makes the next one upload
  again, however few pushes came between (`LostMarkStartsAgain`, `UploadsTooCloseExactly`).
- Quantile edges tie when labels do, so even the smallest and the largest label may share a bucket and
  a dataset of continuous labels be a single class (`TiesShareBucket`); `BucketsSpreadExactly` says when.
- An image without annotations has label -1, which Python resolves to the last class name, so it is
  counted as one of that class (`UnlabelledJoinLastClass`, `LabelsClashExactly`).

## Model

| member | source | states |
|---|---|---|
| `EndToEnd.EverySampleTrainedExactly` | services/task-orchestrator/app/grpc_server.py:547-562 | In every run in which results come from lease holders, a completed job launched on the batches of a dataset has trained each sample index 0..total-1 as often as its `final_version` asks (once if it is missing or below 1) less the resets of the job that were cut after their epoch was counted: exactly that often if and only if no reset was cut |
| `EndToEnd.EverySampleTrainedAtLeast` | services/task-orchestrator/app/grpc_server.py:669-781 | In every run whatsoever, with late, duplicate and stale results from anyone and handlers cut anywhere, the same with "at least" |
| `EndToEnd.ShardDataset` | services/dataset-sharder/app/grpc_server.py:44-120 | Succeeds exactly for a shard count (zero meaning 10) between 1 and the number of samples and a caller who stays until the last shard; then every identifier is that of its shard and index scoped by the job, or by the dataset without a job; sizes are as requested (zero meaning the default), only the last batch of a shard being short; the batches hold each sample once exactly when the batch size is not negative; and with job and model given exactly these rows are added beside rows of other scopes, otherwise none |
| `EndToEnd.ShardTwoJobs` | services/dataset-sharder/app/grpc_server.py:92-110 | Two jobs sharded one after the other, on one dataset or two: if their cleaned identifiers differ, the second call keeps every row of the first |
| `EndToEnd.CutShards` | services/dataset-sharder/app/grpc_server.py:78-101 | The shards one after the other until the caller is gone; all batches together are those of all shards, whatever order each pool finished in |
| `EndToEnd.NegativeSizeLosesSamples` | services/dataset-sharder/app/services/batch_storage.py:528-543 | With a negative batch size the batches hold no sample, so the dataset is lost unless it is empty |
| `EndToEnd.ScopesKeepApart` | services/dataset-sharder/app/services/batch_storage.py:28-46 | Jobs with different cleaned scopes never produce the same batch identifier, whatever their shards |
| `EndToEnd.LaunchedRowsStay` | services/dataset-sharder/app/services/batch_persistence.py:9-41 | From launch on a job keeps exactly its rows and its pass setting, through every step of every run |
| `OrchestratorEffects.LaunchEffect` | services/dataset-sharder/app/services/batch_persistence.py:9-41 | A launched job is pending without progress, and its batches are available |
| `ProtocolTheorems.ExactlyTargetPasses` | services/task-orchestrator/app/grpc_server.py:669-781 | In the lease regime each batch of a completed job was reported successful exactly target times less the cut resets of the job; exactly target times if and only if no reset was cut |
| `ProtocolTheorems.AtLeastTargetPasses` | services/task-orchestrator/app/grpc_server.py:555-562 | Whoever reports and whatever is cut: `completed` is never written before each batch had a success in every pass, but for the passes whose reset was cut |
| `ProtocolTheorems.RolloversFollowCounter` | services/task-orchestrator/app/grpc_server.py:689-729 | In every reachable state the resets done, the resets cut after the count, and one under way add up to min(epoch counter, target - 1), even when the counter itself passes the target |
| `ProtocolRuns.CutResetLosesPass` | services/task-orchestrator/app/grpc_server.py:495-503 | A lease-regime run: two passes asked for, the stream of the worker whose handler counted the first epoch closes before the reset is committed, and the job is completed with each batch trained once |
| `ProtocolRuns.CompletedRunExists` | services/task-orchestrator/app/grpc_server.py:547-781 | For every `final_version` there is a lease-regime run in which the job completes and its batch was trained exactly that many times (once if it is missing or below 2) |
| `ProtocolTheorems.OneRolloverPerPass` | services/task-orchestrator/app/grpc_server.py:686-729 | Between two resets of a job every one of its batches is reported successful again, however many handlers wait for the lock |
| `ProtocolTheorems.ResetTakesNoLease` | services/task-orchestrator/app/grpc_server.py:707-716 | In the lease regime a reset finds all batches completed, so it takes none from a worker |
| `ProtocolTheorems.SuccessesOfJob` | services/task-orchestrator/app/grpc_server.py:555-562 | In the lease regime the successes of a job are rollovers times its batches plus the batches completed now |
| `ProtocolTheorems.DispatchBudget` | services/task-orchestrator/app/services/assignment_engine.py:86-122 | In every state of the lease regime a job with B batches and target E was dispatched at most E·B + 2·B times, plus disconnect releases; leases still out or orphaned are within the bound |
| `ProtocolTheorems.BatchBudget` | services/task-orchestrator/app/grpc_server.py:564-624 | Per batch, in every state: dispatches are successes, failures, releases, withdrawals and the lease still out; successes at most the target, failures and withdrawals at most three together, so at most target + 2 dispatches beside those released |
| `ProtocolTheorems.DispatchesOfJob` | services/task-orchestrator/app/services/assignment_engine.py:86-122 | All dispatches of a job are its successes, failures, releases, withdrawals, the leases held by workers and those orphaned by a failed payload |
| `ProtocolLease.RunWithin` | services/task-orchestrator/app/grpc_server.py:576-597 | In every lease-regime state a batch has failed and been withdrawn at most three times together, and unless its row is failed it has failed at most twice and was never withdrawn |
| `ProtocolTheorems.BatchStays` | services/task-orchestrator/app/grpc_server.py:547-597 | Rows are never dropped and never change their job |
| `ProtocolSafety.StepSafe` | services/task-orchestrator/app/grpc_server.py:547-850 | Every step of engine, handlers, workers and users, a handler cut at any await included, keeps the invariant behind the at-least-once result |
| `ProtocolSafety.RunSafe` | services/task-orchestrator/app/grpc_server.py:547-850 | The invariant holds in every reachable state: locks have one live holder, a locked job and a job past its target have all batches trained in this pass, rollovers and cut resets match the counter |
| `ProtocolLease.StepExact` | services/task-orchestrator/app/grpc_server.py:547-624 | In the lease regime every step, cuts included, keeps one success per batch and pass, sealed jobs inside the lock, and the balance of leases |
| `ProtocolLease.RunExact` | services/task-orchestrator/app/grpc_server.py:547-624 | The lease-regime invariant holds in every state of every such run |
| `ProtocolVerdicts.TerminalAbsorbs` | services/task-orchestrator/app/grpc_server.py:717-727 | No step of engine or orchestrator leaves `cancelled`, `failed` or `completed`; only a user cancel overwrites, with `cancelled` |
| `ProtocolVerdicts.TerminalForever` | services/task-orchestrator/app/grpc_server.py:783-803 | Once terminal, terminal in every later state, and the same status unless the user cancels |
| `ProtocolVerdicts.SpentDoomedThroughout` | services/task-orchestrator/app/grpc_server.py:576-597 | Over runs, exactly: every job with a batch that failed three times (or also: whose lease was withdrawn) is over or about to be failed throughout, if and only if the only handler that was to fail such a job is never cut |
| `ProtocolVerdicts.DoomLostExactly` | services/task-orchestrator/app/grpc_server.py:783-813 | One step, exactly: a job that is over or about to be failed stays so unless the step cuts the only handler that was to fail it |
| `ProtocolRuns.CutFailingSparesJob` | services/task-orchestrator/app/grpc_server.py:495-503 | A lease-regime run: a batch fails three times, the stream of the reporting worker closes before the job is failed, and the job stays running with no handler left to fail it |
| `ProtocolVerdicts.ReportedEpochInRange` | services/task-orchestrator/app/grpc_server.py:827-850 | The reported epoch lies in 1..target and the reported batch count within the total, in every run |
| `Protocol.PassFinishedMeansAllCompleted` | services/task-orchestrator/app/grpc_server.py:669-684 | The comparison of counts holds exactly when every row of the job is completed |
| `ProtocolVerdicts.BusyIffLeased` | services/task-orchestrator/app/grpc_server.py:38-61 | However workers register again, leave and report: in every state a worker is busy exactly while a batch is recorded for it, so only connected workers without one are picked |
| `OrchestratorEffects.ConnectEffect` | services/task-orchestrator/app/grpc_server.py:38-40 | A worker that connects again keeps its status and its batch; a new one is idle |
| `Orchestrator.StreamManager.GetIdleWorker` | services/task-orchestrator/app/grpc_server.py:47-51 | Returns a connected idle worker, and none only if there is none |
| `Orchestrator.TaskOrchestrator.CommitResult` | services/task-orchestrator/app/grpc_server.py:547-597 | The first block of a result is the protocol step `Report`, whoever sends it and whatever the row's status; when its commit fails, only the failure counter may have moved |
| `Orchestrator.TaskOrchestrator.UpdateJobProgress` | services/task-orchestrator/app/grpc_server.py:815-850 | Is the protocol block that writes progress |
| `Orchestrator.TaskOrchestrator.CountBeforeLock` | services/task-orchestrator/app/grpc_server.py:669-684 | Is the unlocked count: only a finished pass of a job with rows goes on to the lock |
| `Orchestrator.TaskOrchestrator.AcquireAndRecount` | services/task-orchestrator/app/grpc_server.py:689-699 | Is the count repeated under the lock |
| `Orchestrator.TaskOrchestrator.DecideEpoch` | services/task-orchestrator/app/grpc_server.py:701-729 | Is the counter step that chooses between another epoch and finalizing |
| `Orchestrator.TaskOrchestrator.StartNextEpoch` | services/task-orchestrator/app/grpc_server.py:707-728 | Is the reset block; a terminal job keeps its status |
| `Orchestrator.TaskOrchestrator.CompleteJob` | services/task-orchestrator/app/grpc_server.py:731-778 | Is the finalizing block; cancelled and failed jobs keep their status |
| `Orchestrator.TaskOrchestrator.MarkJobFailed` | services/task-orchestrator/app/grpc_server.py:783-813 | Is the failing block; untrained batches are withdrawn |
| `Orchestrator.TaskOrchestrator.HandleTaskResult` | services/task-orchestrator/app/grpc_server.py:547-597 | An undisturbed call is its report followed by all its blocks, up to a lock held by someone else |
| `OrchestratorEffects.SuccessEffect` | services/task-orchestrator/app/grpc_server.py:547-562 | A success while another batch of the job is open: its row is completed without a worker, the progress shows the counts and the epoch under way, the worker is idle, and nothing else changes |
| `OrchestratorEffects.LastSuccessEffect` | services/task-orchestrator/app/grpc_server.py:547-562 | A success that leaves no batch open, with the lock free: one epoch is counted; below the target every batch of the job is available and the job runs in that epoch, at the target it is completed, terminal statuses staying as in the source; other jobs and rows stay |
| `OrchestratorEffects.LastSuccessWaits` | services/task-orchestrator/app/grpc_server.py:686-690 | With the lock taken the same report leaves its handler waiting and the pass to be ended |
| `OrchestratorEffects.FailureEffect` | services/task-orchestrator/app/grpc_server.py:576-597 | A failure is counted; below three its row is available again and nothing else changes, at three the row is failed, the job too unless cancelled or completed, and every other row of the job that is available or assigned |
| `OrchestratorEffects.CriticalEffect` | services/task-orchestrator/app/grpc_server.py:564-574 | A critical failure does the same at once and leaves the counter alone |
| `OrchestratorEffects.LostFailureEffect` | services/task-orchestrator/app/grpc_server.py:576-597 | When the commit of a failed batch's row is lost, the count alone remains |
| `OrchestratorEffects.UnknownBatchIgnored` | services/task-orchestrator/app/grpc_server.py:547-552 | A result for a batch that is not known changes nothing |
| `Orchestrator.TaskOrchestrator.HandleDisconnect` | services/task-orchestrator/app/grpc_server.py:599-624 | The lease comes back: if the batch recorded for the worker is still assigned its row becomes available without a worker, every other row stays, and the worker is gone from queues, status and leases; when the release fails no row changes and the worker is gone all the same |
| `OrchestratorEffects.DisconnectedRunCompletes` | services/task-orchestrator/app/grpc_server.py:599-624 | For every `final_version` a lease-regime run in which a worker leaves while it holds the only batch, another worker trains it in every pass, and the job is completed with that many successes |
| `Orchestrator.TaskOrchestrator.CutHandler` | services/task-orchestrator/app/grpc_server.py:495-503 | A handler cut while suspended leaves only what it has committed, and frees the epoch lock if it holds it |
| `OrchestratorEffects.CutEffect` | services/task-orchestrator/app/grpc_server.py:495-503 | A cut changes nothing but the handler and, if the handler is inside it, the lock |
| `Orchestrator.LastSuccessEndsPass` | services/task-orchestrator/app/grpc_server.py:669-781 | The report that completes a pass counts one epoch; below the target all batches become available again, at the target the job is completed unless the user or a failure ended it, and every lock is free afterwards |
| `Orchestrator.RankFalls` | services/task-orchestrator/app/grpc_server.py:547-624 | No block of a handler leads back to an earlier one |
| `Orchestrator.DriveEnds` | services/task-orchestrator/app/grpc_server.py:689-690 | A handler left alone ends, or waits for a lock that another one holds |
| `Orchestrator.DriveIsRun` | services/task-orchestrator/app/grpc_server.py:547-624 | A handler left alone is a run of protocol steps |
| `Orchestrator.TaskOrchestrator.FetchAvailableBatch` | services/task-orchestrator/app/services/assignment_engine.py:25-42 | Returns an available batch of a pending or running job, and none only if there is none |
| `Orchestrator.TaskOrchestrator.AssignBatch` | services/task-orchestrator/app/services/assignment_engine.py:44-56 | Is the dispatch step: row leased, pending job made running |
| `Orchestrator.TaskOrchestrator.EngineTurn` | services/task-orchestrator/app/services/assignment_engine.py:83-130 | Nothing happens without an idle connected worker; without a batch to hand out it polls again; otherwise such a batch is leased, and delivered or its payload lost |
| `OrchestratorEffects.HandOverEffect` | services/task-orchestrator/app/services/assignment_engine.py:44-56 | A lease handed over: the row names the worker, a pending job runs, and the worker is busy with the batch if the payload was built; nothing else changes |
| `OrchestratorEffects.DispatchOnlyActive` | services/task-orchestrator/app/services/assignment_engine.py:25-42 | Exactly the available batches of pending and running jobs can be handed out, and exactly idle connected workers are picked |
| `DatasetSharding.DatasetSharder.CreateShards` | services/dataset-sharder/app/services/dataset_sharder.py:100-154 | Fails exactly for a shard count below 1 or above the number of samples; otherwise every strategy partitions 0..total-1 as it promises, and every shard is described by its position, its exact class counts and its share of the bytes |
| `DatasetSharding.DatasetSharder.GroupSamplesByClass` | services/dataset-sharder/app/services/dataset_sharder.py:355-424 | Given the name of every sample, groups partition the samples, hold one name each in ascending order, and come in the order the names are first met; the second call returns the cached groups |
| `Labels.SharderFor` | services/dataset-sharder/app/services/dataset_sharder.py:379-424 | The names the groups are made of: buckets for continuous labels, the dataset's names or decimals for whole numbers, text as it is; fails exactly for a whole number below minus the number of names |
| `Labels.BucketClassesApart` | services/dataset-sharder/app/services/dataset_sharder.py:395-413 | The classes of continuous labels are disjoint ranges: of two classes, all labels of one are below all labels of the other |
| `Labels.UnlabelledJoinLastClass` | services/dataset-sharder/app/services/dataset_sharder.py:415-419 | Label -1, which stands for an image without annotations, gets the name of the last class |
| `Labels.LabelsClashExactly` | services/dataset-sharder/app/services/dataset_sharder.py:415-419 | When two whole-number labels share a class, the names being distinct: a negative one counts from the end and lands on the other, or one beyond the names is written like the other's name |
| `DatasetSharding.DatasetSharder.CreateRandomShards` | services/dataset-sharder/app/services/dataset_sharder.py:156-194 | Partitions the samples under any shuffle |
| `DatasetSharding.DatasetSharder.CreateSequentialShards` | services/dataset-sharder/app/services/dataset_sharder.py:318-348 | Partitions the samples in order: earlier shards hold smaller indices |
| `DatasetSharding.DatasetSharder.CreateStratifiedShards` | services/dataset-sharder/app/services/dataset_sharder.py:196-247 | Partitions the samples; every shard has floor(n_c/k) of each class c, the last one also n_c mod k |
| `DatasetSharding.DatasetSharder.CreateNonIidShards` | services/dataset-sharder/app/services/dataset_sharder.py:249-316 | Partitions the samples for any positive proportions; of each class every shard gets its quota rounded down, or one more |
| `DatasetSharding.DatasetSharder.CalculateClassDistribution` | services/dataset-sharder/app/services/dataset_sharder.py:426-435 | The counts per class are positive exactly for the classes present and add up to the shard size |
| `DatasetSharding.DatasetSharder.Describe` | services/dataset-sharder/app/services/dataset_sharder.py:156-194 | Every shard keeps its indices and position, with the exact count of each of its classes |
| `DatasetSharding.ShardEstimates` | services/dataset-sharder/app/services/dataset_sharder.py:437-440 | Estimated sizes of a partition add up to at most the dataset size and to more than the size minus the number of shards |
| `DatasetSharding.EstimateIsShare` | services/dataset-sharder/app/services/dataset_sharder.py:437-440 | The estimate is the share of the bytes rounded down |
| `ShardingEffects.ShuffleReaches` | services/dataset-sharder/app/services/dataset_sharder.py:165-165 | The results of shuffling a list are exactly its permutations |
| `ShardingEffects.RandomShardsReach` | services/dataset-sharder/app/services/dataset_sharder.py:156-194 | Every order of the samples comes out of some draws, and the random shards are its even pieces |
| `ShardingEffects.RandomShardsAre` | services/dataset-sharder/app/services/dataset_sharder.py:156-194 | And the random shards are always the even pieces of some order |
| `ShardingEffects.SequentialShardsAre` | services/dataset-sharder/app/services/dataset_sharder.py:318-348 | Sequential shards are the even pieces of 0..n-1, the last one with what is left over |
| `ShardingEffects.StratifiedReach` | services/dataset-sharder/app/services/dataset_sharder.py:196-247 | Any order of every class and, after dealing, any order of every shard comes out of some draws |
| `ShardingEffects.SkewedReach` | services/dataset-sharder/app/services/dataset_sharder.py:249-316 | So for the non-IID shards |
| `Sharding.EvenShardsPartition` | services/dataset-sharder/app/services/dataset_sharder.py:156-194 | Even cuts of the shuffled and of the ordered indices are partitions |
| `Sharding.StratifiedShardsPartition` | services/dataset-sharder/app/services/dataset_sharder.py:196-247 | Dealing shuffled classes evenly and shuffling the shards keeps a partition |
| `Sharding.SkewedShardsPartition` | services/dataset-sharder/app/services/dataset_sharder.py:249-316 | So does dealing with any sizes that fit the classes |
| `Sharding.StratifiedClassCount` | services/dataset-sharder/app/services/dataset_sharder.py:213-227 | The exact number of samples of each class in each stratified shard |
| `Sharding.SkewedClassCount` | services/dataset-sharder/app/services/dataset_sharder.py:288-296 | A non-IID shard holds of each class exactly the number allotted to it |
| `Apportionment.ShortfallInRange` | services/dataset-sharder/app/services/dataset_sharder.py:274-281 | After rounding down, the samples left over number 0..k-1, for any positive proportions |
| `ShardingEffects.QuotaIsShare` | services/dataset-sharder/app/services/dataset_sharder.py:268-272 | A shard's quota of a class is to the class as its proportion is to the sum of the proportions |
| `Apportionment.LargestAreBumped` | services/dataset-sharder/app/services/dataset_sharder.py:280-285 | The samples left over go to shards with the largest proportions |
| `Apportionment.Apportion` | services/dataset-sharder/app/services/dataset_sharder.py:274-285 | The sizes add up to the class exactly and each is floor(quota) or floor(quota) + 1 |
| `Quantiles.EdgesAscend` | services/dataset-sharder/app/services/dataset_sharder.py:405-408 | Bucket edges ascend, ties included, and enclose every label |
| `Quantiles.BucketIds` | services/dataset-sharder/app/services/dataset_sharder.py:398-413 | With at least two distinct labels every label lies between the edges of its bucket, for as many bins as distinct labels, at most ten; with fewer there is a single bucket; larger labels never get a smaller bucket |
| `Quantiles.EdgeInterpolates` | services/dataset-sharder/app/services/dataset_sharder.py:405-408 | The inner edge j of b bins over n labels lies at rank j(n-1)/b, between neighbouring labels in proportion; the outer edges are the extreme labels moved out by 0.00001 |
| `Quantiles.BucketByRank` | services/dataset-sharder/app/services/dataset_sharder.py:405-409 | With all labels different the i-th smallest of n gets bucket i*b/(n-1) rounded down, the largest the last |
| `Quantiles.OwnBucket` | services/dataset-sharder/app/services/dataset_sharder.py:398-409 | So at most ten labels, all different, have a bucket each, in order |
| `Quantiles.BucketsSpreadExactly` | services/dataset-sharder/app/services/dataset_sharder.py:405-409 | With ties the largest label is in the last bucket, and the smallest is in another one exactly when the label at the rank of the last inner edge, rounded up, is larger than it |
| `Quantiles.TiesShareBucket` | services/dataset-sharder/app/services/dataset_sharder.py:405-409 | Nine zeros and a one are all in one bucket |
| `Batches.CreateBatchesFromShard` | services/dataset-sharder/app/services/batch_storage.py:508-588 | Whatever the order the workers of the pool finish in, the result is a permutation of the batches of the shard |
| `Batches.AllBatchesCover` | services/dataset-sharder/app/services/batch_storage.py:526-545 | The batches of a shard hold each sample as often as the shard does |
| `Batches.BatchSizes` | services/dataset-sharder/app/services/batch_storage.py:528-543 | Batch i is the i-th run of consecutive samples, never empty, and only the last of a shard may be short |
| `Batches.NegativeCountIs` | services/dataset-sharder/app/services/batch_storage.py:528-531 | For a negative size the formula makes one batch of a single sample and none of more |
| `Batches.JobBatchesCover` | services/dataset-sharder/app/services/batch_storage.py:508-588 | The batches of all shards hold each sample as often as the shards do |
| `Batches.JobIdsDistinct` | services/dataset-sharder/app/services/batch_storage.py:551-555 | Identifiers are distinct across all shards of a job |
| `Batches.PersistBatches` | services/dataset-sharder/app/services/batch_persistence.py:9-41 | The loop is the upsert of all batches, counted |
| `Batches.PersistFresh` | services/dataset-sharder/app/services/batch_persistence.py:17-38 | Fresh identifiers become exactly the available rows of the job and other rows stay |
| `Batches.PersistEffect` | services/dataset-sharder/app/services/batch_persistence.py:17-38 | Whatever rows are there: the row of every batch is the job's and available and keeps its worker if it was there, other rows stay |
| `BatchIds.ScopedIdInjective` | services/dataset-sharder/app/services/batch_storage.py:28-38 | Equal identifiers mean equal cleaned scopes, shards and indices |
| `BatchIds.CleaningIs` | services/dataset-sharder/app/services/batch_storage.py:28-31 | A scope is cleaned by taking off the outer white space and writing a dash for every slash and backslash; nothing is left of white space alone |
| `BatchIds.IdReads` | services/dataset-sharder/app/services/batch_storage.py:34-38 | Under a clean scope the identifier reads scope__shard_s_batch_i |
| `BatchIds.SplitReads` | services/dataset-sharder/app/services/batch_storage.py:41-45 | An identifier is split at its first double underscore, and nothing before it is no scope |
| `BatchIds.SplitRoundTrip` | services/dataset-sharder/app/services/batch_storage.py:34-45 | Splitting gives back scope and base exactly when the scope has no double underscore and does not end in an underscore |
| `BatchIds.SplitFailsForTrailingUnderscore` | services/dataset-sharder/app/services/batch_storage.py:41-45 | A scope for which splitting fails |
| `BatchIds.DecimalRoundTrip` | services/dataset-sharder/app/services/batch_storage.py:551-555 | Decimal numbers in identifiers can be read back |
| `BatchIds.DecimalDigits` | services/dataset-sharder/app/services/batch_storage.py:551-555 | The digits are 0 to 9, and ten times as much and one digit more is written with that digit at the end |
| `LoadBalancing.GreedyBound` | services/dataset-sharder/app/services/data_distribution.py:251-271 | Graham's bound: against any placement with peak P over m workers, greedy on descending sizes stays within (4/3 - 1/(3m))·P |
| `LoadBalancingWorstCase.BoundAttained` | services/dataset-sharder/app/services/data_distribution.py:251-271 | The bound is attained for every m: there are batches that can be split with 3m samples each and of which greedy gives some worker 4m-1 |
| `LoadBalancing.LoadsConserveSamples` | services/dataset-sharder/app/services/data_distribution.py:251-271 | Loads of any placement add up to all samples |
| `LoadBalancing.GreedyBalanced` | services/dataset-sharder/app/services/data_distribution.py:262-269 | Loads never differ by more than the largest batch |
| `LoadBalancing.LargeLastBatch` | services/dataset-sharder/app/services/data_distribution.py:259-269 | When the last batch exceeds a third of the peak, greedy stays within the peak itself |
| `DistributionTheorems.BalancedWithinFourThirds` | services/dataset-sharder/app/services/data_distribution.py:251-271 | The load-balanced plan is within (4/3 - 1/(3m)) of any split of the same batches over the m workers |
| `DistributionTheorems.BalancedSpread` | services/dataset-sharder/app/services/data_distribution.py:251-271 | No two workers of the load-balanced plan differ by more than the largest batch |
| `DistributionTheorems.BalancedKeepsBatches` | services/dataset-sharder/app/services/data_distribution.py:251-271 | The load-balanced plan hands out every batch once and its totals are all samples |
| `DistributionEffects.BalancedDeals` | services/dataset-sharder/app/services/data_distribution.py:259-269 | Batches are dealt largest first, each to the end of the list of the worker with the fewest samples so far, the first one among equals |
| `DistributionEffects.BalancedEntry` | services/dataset-sharder/app/services/data_distribution.py:251-271 | Every entry names its worker and mixed shards, and its total is that of the batches it lists |
| `DistributionTheorems.RoundRobinKeepsBatches` | services/dataset-sharder/app/services/data_distribution.py:231-249 | Round robin hands out every batch once and batch counts differ by at most one |
| `DistributionEffects.RoundRobinDeals` | services/dataset-sharder/app/services/data_distribution.py:240-247 | Batches are dealt in order of shard and index: the i-th goes to worker i mod m, as its (i div m)-th |
| `DistributionEffects.RoundRobinEntry` | services/dataset-sharder/app/services/data_distribution.py:231-249 | Every entry names its worker and mixed shards, and its total is that of the batches it lists |
| `DistributionTheorems.ShardPlanComplete` | services/dataset-sharder/app/services/data_distribution.py:187-229 | With one shard per worker every batch is handed out once exactly when there are no more shards than workers |
| `DistributionTheorems.ShardPlanGroups` | services/dataset-sharder/app/services/data_distribution.py:208-227 | Worker k gets exactly the batches of the k-th smallest shard number |
| `DistributionEffects.ShardEntryInOrder` | services/dataset-sharder/app/services/data_distribution.py:204-227 | A worker lists exactly the batches of its shard, in order of their index, with their total |
| `DistributionEffects.ShardsAscend` | services/dataset-sharder/app/services/data_distribution.py:204-208 | The shards are those of the batches, in ascending order |
| `Distribution.AssignLoadBalanced` | services/dataset-sharder/app/services/data_distribution.py:251-271 | The loop computes the greedy plan on batches sorted largest first |
| `Distribution.GreedyPlanPlaces` | services/dataset-sharder/app/services/data_distribution.py:262-269 | The greedy plan is the plan of the greedy placement |
| `Distribution.AssignRoundRobin` | services/dataset-sharder/app/services/data_distribution.py:231-249 | The loop computes the round-robin plan |
| `Distribution.AssignShardPerWorker` | services/dataset-sharder/app/services/data_distribution.py:187-229 | Grouping, sorting and pairing compute the one-shard-per-worker plan |
| `Distribution.GroupByShard` | services/dataset-sharder/app/services/data_distribution.py:193-203 | The groups are the batches of each shard, in list order |
| `Sorting.SortOrders` | services/dataset-sharder/app/services/data_distribution.py:241-260 | The stable sort by any total preorder is ordered |
| `Sorting.SortStable` | services/dataset-sharder/app/services/data_distribution.py:241-260 | The sort is stable |
| `Ledger.DataDistributor.AssignBatchesToWorkers` | services/dataset-sharder/app/services/data_distribution.py:124-185 | No batches means nothing to assign; no workers, or the locality strategy, is an error; otherwise the plan of the strategy is recorded |
| `Ledger.DataDistributor.MarkDownloadStarted` | services/dataset-sharder/app/services/data_distribution.py:286-314 | Succeeds for pending records only and changes nothing else |
| `Ledger.DataDistributor.MarkDownloadCompleted` | services/dataset-sharder/app/services/data_distribution.py:316-344 | Is the ledger operation; reports whether the record exists |
| `Ledger.DataDistributor.MarkDownloadFailed` | services/dataset-sharder/app/services/data_distribution.py:346-381 | Is the ledger operation, which counts one more retry |
| `LedgerEffects.StartedEffect` | services/dataset-sharder/app/services/data_distribution.py:286-314 | A pending record becomes downloading; otherwise nothing changes |
| `LedgerEffects.CompletedEffect` | services/dataset-sharder/app/services/data_distribution.py:316-344 | A known record becomes completed and the worker lists the batch once; nothing else changes |
| `LedgerEffects.FailedEffect` | services/dataset-sharder/app/services/data_distribution.py:346-381 | A known record becomes failed with one retry more and the worker lists the batch once; nothing else changes |
| `Ledger.DataDistributor.ReassignFailedBatch` | services/dataset-sharder/app/services/data_distribution.py:383-437 | Moves a batch exactly when it has a named holder with a record and fewer than three retries |
| `LedgerEffects.ReassignEffect` | services/dataset-sharder/app/services/data_distribution.py:383-437 | The holder's record is marked; the new worker gets a pending one with the same shard, index and retries, the batch at the end of its list, and the batch; exactly if a named holder has fewer than three retries |
| `LedgerEffects.FailedAre` | services/dataset-sharder/app/services/data_distribution.py:468-475 | The failed batches are the failed records with fewer than three retries |
| `Ledger.DataDistributor.GetFailedBatches` | services/dataset-sharder/app/services/data_distribution.py:468-475 | Exactly the failed records that may be retried, in the order the records were first written |
| `Ledger.DataDistributor.AutoReassignFailedBatches` | services/dataset-sharder/app/services/data_distribution.py:477-512 | Fails only with failures and no worker available; otherwise performs the round-robin moves of the snapshot in record order and returns the records they made |
| `LedgerTheorems.ApplyKeeps` | services/dataset-sharder/app/services/data_distribution.py:286-437 | Every operation keeps holders pointing at live records and reports within the assigned batches |
| `LedgerTheorems.PlanConsistent` | services/dataset-sharder/app/services/data_distribution.py:155-178 | One assignment into an empty distributor is consistent and enters exactly the plan |
| `LedgerEffects.PlanRecords` | services/dataset-sharder/app/services/data_distribution.py:155-178 | Every record written is the pending one of a batch of that identifier, with its shard and index |
| `LedgerEffects.PlannedHaveRecords` | services/dataset-sharder/app/services/data_distribution.py:155-178 | The records written are exactly those of the planned batches |
| `LedgerEffects.PlanInOrder` | services/dataset-sharder/app/services/data_distribution.py:155-178 | The records are written in the order of the plan, each worker's in the order of its list |
| `LedgerTheorems.PlanIsFresh` | services/dataset-sharder/app/services/data_distribution.py:124-185 | For distinct workers every strategy starts with distinct entries and nothing reported |
| `LedgerTheorems.RunConsistent` | services/dataset-sharder/app/services/data_distribution.py:124-437 | After one assignment and any operations, `batch_to_worker` names a worker with a live record that lists the batch |
| `LedgerTheorems.ProgressInRange` | services/dataset-sharder/app/services/data_distribution.py:76-84 | Progress lies in 0..1, and `is_complete` holds exactly when no batch is listed twice and all listed ones were completed |
| `LedgerTheorems.CompleteMeansReported` | services/dataset-sharder/app/services/data_distribution.py:82-84 | When `is_complete` holds, every batch the worker was ever given was reported completed by it |
| `LedgerTheorems.CompletedWasReported` | services/dataset-sharder/app/services/data_distribution.py:316-344 | Nothing is listed as completed that was not reported so |
| `LedgerTheorems.ReturnedBatchNeverCompletes` | services/dataset-sharder/app/services/data_distribution.py:418-431 | A worker that gets a batch back it had before never becomes complete again |
| `LedgerTheorems.SpentBatchStays` | services/dataset-sharder/app/services/data_distribution.py:383-437 | The retry count of a batch's holder never drops, and from the third retry on the holder never changes |
| `LedgerTheorems.FailedRecordsAreHeld` | services/dataset-sharder/app/services/data_distribution.py:468-512 | While only holders report failures, every failed record belongs to the batch's holder, so automatic reassignment takes batches only from the worker that failed them |
| `LedgerTheorems.LateFailureMovesCompletedBatch` | services/dataset-sharder/app/services/data_distribution.py:468-512 | A failure reported late by an earlier holder takes a batch from a worker that has completed it |
| `LedgerMoves.TakesCompletedExactly` | services/dataset-sharder/app/services/data_distribution.py:477-512 | One call, exactly: it takes a batch from a worker that has completed it if and only if the holder's retries are not spent and some entry about it with another target comes up while a named worker that has completed it holds it |
| `LedgerMoves.HolderLosesCompleted` | services/dataset-sharder/app/services/data_distribution.py:477-512 | When no available worker has completed the batch: if and only if the holder has completed it, may still be moved from, and the snapshot has an entry about it with another target |
| `LedgerMoves.ExposedMeansTaken` | services/dataset-sharder/app/services/data_distribution.py:477-512 | With one new worker available the next call takes the batch from its completing holder if and only if the batch is exposed: so held, and with some retryable failed record |
| `LedgerMoves.ExposedExactly` | services/dataset-sharder/app/services/data_distribution.py:316-437 | Each operation, exactly: it exposes its batch if and only if it is not careful, a guard on the state before it |
| `LedgerMoves.NeverExposedExactly` | services/dataset-sharder/app/services/data_distribution.py:316-437 | Over runs, exactly: a batch is never exposed if and only if every operation on it was careful |
| `LedgerMoves.DisciplineSuffices` | services/dataset-sharder/app/services/data_distribution.py:346-381 | It is enough that failures are reported only by the holder and only before it completes the batch |
| `LedgerMoves.FailureAfterCompletionExposes` | services/dataset-sharder/app/services/data_distribution.py:316-381 | A holder that completes the batch and then reports a failure of it exposes it |
| `LedgerMoves.FailureBeforeCompletionExposes` | services/dataset-sharder/app/services/data_distribution.py:316-437 | So does the earlier holder that reports a failure before the new holder completes the batch, although no failure follows the completion |
| `ParameterServer.Servicer.PersistToRedis` | services/parameter-server/app/services/parameter_storage.py:632-659 | Writes the snapshot, moves the version and prunes the snapshot that left the window |
| `ParameterServer.Servicer.PullWeights` | services/parameter-server/app/grpc_server.py:126-154 | Serves the latest weights with their version; an update is signalled exactly when that version is newer |
| `ParameterServer.Servicer.PushGradients` | services/parameter-server/app/grpc_server.py:156-256 | Is the push on values, and acknowledges accordingly; what that push does to every number is said by the rows of `UpdateRule` |
| `UpdateRule.WeightAfterPush` | services/parameter-server/app/grpc_server.py:197-241 | The new weight is the old one less rate times buffer: the rate being the stored or else requested one, times gamma once per `decayStep` versions but not below the floor, times damping once per version behind; the buffer momentum times the old one plus the gradient, with decay for matrices |
| `UpdateRule.OneVersionFurtherBehind` | services/parameter-server/app/grpc_server.py:197-198 | A push one version further behind moves every weight by exactly `damping` times as much |
| `UpdateRule.RateFallsByGamma` | services/parameter-server/app/grpc_server.py:200-205 | Every `decayStep` versions the rate is multiplied by gamma, but not below the floor |
| `UpdateRule.RateBeforeFirstDecay` | services/parameter-server/app/grpc_server.py:200-205 | Before that it is the rate asked for, or the floor |
| `UpdateRule.PlainStep` | services/parameter-server/app/grpc_server.py:217-233 | Without staleness, schedule, momentum and decay: plain gradient descent |
| `UpdateRule.OtherTensorsKept` | services/parameter-server/app/grpc_server.py:217-241 | Tensors without a gradient keep weight and buffer, none comes or goes, and the result is the stored snapshot |
| `UpdateRule.PushAnswer` | services/parameter-server/app/grpc_server.py:169-195 | With weights a push is accepted whatever its rate; without, it becomes the first weights exactly when its rate is zero, and otherwise changes nothing; the answer says which |
| `UpdateRule.PullEffect` | services/parameter-server/app/grpc_server.py:126-154 | A pull moves nothing but the version the process remembers |
| `TrainingBounds.EffectiveRateFalls` | services/parameter-server/app/grpc_server.py:197-206 | The more stale of two pushes never gets the higher rate; every rate lies between zero and the scheduled one, and a push that is not behind gets the scheduled one |
| `ParameterServer.Servicer.ApplyGradients` | services/parameter-server/app/grpc_server.py:217-233 | The loop over tensors updates each tensor present in the push once, from the old weights and buffers |
| `TrainingRuns.SnapshotWindow` | services/parameter-server/app/services/parameter_storage.py:632-682 | With version V >= 1 exactly the snapshots max(1, V-h+1)..V exist, and a pull gets the newest under its number |
| `TrainingRuns.SeedOnlyFirst` | services/parameter-server/app/grpc_server.py:170-195 | The seed branch runs at version 0 only, and accepted pushes are exactly the ones that make the next version |
| `TrainingRuns.VersionIsAccepted` | services/parameter-server/app/grpc_server.py:235-241 | The version is the number of accepted pushes, across pulls and restarts |
| `TrainingRuns.StalenessCountsPushes` | services/parameter-server/app/grpc_server.py:197-197 | The staleness of a push is the number of pushes accepted since its worker pulled |
| `TrainingRuns.SnapshotsImmutable` | services/parameter-server/app/services/parameter_storage.py:632-659 | A snapshot found at two times is the same both times |
| `TrainingRuns.WeightsClosedForm` | services/parameter-server/app/grpc_server.py:197-233 | Served weights are the seed minus the sum of step size times momentum over the pushes touching the tensor, the momentum being the geometric sum of their gradients |
| `TrainingRuns.MomentumNext` | services/parameter-server/app/grpc_server.py:228-233 | The geometric sum obeys the buffer recurrence |
| `TrainingRuns.AbsentUnchanged` | services/parameter-server/app/grpc_server.py:217-220 | A tensor absent from a push keeps weights and momentum |
| `TrainingBounds.ScheduleInRange` | services/parameter-server/app/grpc_server.py:199-206 | The scheduled rate lies between lr_min and max(lr, lr_min) |
| `TrainingBounds.ScheduleAntitone` | services/parameter-server/app/grpc_server.py:199-206 | The scheduled rate never rises with the version |
| `TrainingBounds.MomentumBound` | services/parameter-server/app/grpc_server.py:228-233 | Gradients of size at most G give momentum of size at most G/(1-mu) |
| `TrainingBounds.TotalDrift` | services/parameter-server/app/grpc_server.py:197-233 | Without weight decay no served weight is further from its seed than (V-1)·max(lr, lr_min)·G/(1-mu) |
| `TrainingBounds.TimesIsProduct` | services/parameter-server/app/grpc_server.py:197-233 | The repeated sum in that bound is the product |
| `Persistence.PersistenceLoop.BeginRound` | services/parameter-server/app/services/persistence_loop.py:101-112 | Is the block that reads version, model and marks |
| `Persistence.PersistenceLoop.RunBlock` | services/parameter-server/app/services/persistence_loop.py:111-135 | Every later block of a round is the step of the value model |
| `Persistence.PersistenceLoop.ProcessJob` | services/parameter-server/app/services/persistence_loop.py:101-135 | An undisturbed call runs the round to its end |
| `Persistence.ModelRegistry.CommitCheckpointVersion` | services/model-registry/app/grpc_server.py:271-288 | The recorded version is the largest committed one, if the model is registered |
| `PersistenceTheorems.CommitEffect` | services/model-registry/app/grpc_server.py:271-288 | A registered model records the larger version, an unregistered one nothing |
| `Persistence.ModelRegistry.GetFinalModelDownloadUrl` | services/model-registry/app/grpc_server.py:321-352 | The final model if stored, else the recorded checkpoint, else not found |
| `PersistenceTheorems.UploadsAreGenuine` | services/parameter-server/app/services/persistence_loop.py:110-122 | Wherever pushes land inside a round, the artifact stored under label v carries exactly the weights written as version v |
| `PersistenceTheorems.LabelsSpaced` | services/parameter-server/app/services/persistence_loop.py:110-122 | Labels of acknowledged checkpoints are at least the interval apart |
| `PersistenceTheorems.UploadsTooCloseExactly` | services/parameter-server/app/services/persistence_loop.py:110-122 | Two uploads, exactly: their labels are closer than the interval if and only if the mark of the first was cut and fewer pushes than the interval were accepted between the two readings of the version |
| `PersistenceTheorems.LostMarkRepeatsUpload` | services/parameter-server/app/services/persistence_loop.py:117-122 | A round cut short between upload and mark makes the next one upload the same label again |
| `PersistenceTheorems.LostMarkStartsAgain` | services/parameter-server/app/services/persistence_loop.py:101-122 | After any cut between upload and mark the next round starts a checkpoint of the version of that moment, however many pushes came between; the label is the same exactly when there were none |
| `PersistenceTheorems.FinalMarkedOnce` | services/parameter-server/app/services/persistence_loop.py:124-135 | The final model is marked at most once, after its object is stored and its version reached |
| `PersistenceTheorems.LoadSucceedsExactly` | services/parameter-server/app/services/persistence_loop.py:78-128 | The load of a round, for a checkpoint and for the final model, succeeds exactly when fewer than h pushes were accepted since the version was read, and then gives the weights written as that version |
| `PersistenceTheorems.RoundEffect` | services/parameter-server/app/services/persistence_loop.py:101-135 | What an undisturbed round uploads and marks |
| `PersistenceTheorems.DownloadFound` | services/model-registry/app/grpc_server.py:321-338 | After the first committed checkpoint a download is always found |
| `PersistenceTheorems.FinalNotOlder` | services/model-registry/app/grpc_server.py:296-308 | The switch from checkpoint to final model never goes back in version |
| `PersistenceTheorems.ServedNeverDecreases` | services/model-registry/app/grpc_server.py:321-352 | Of two downloads one after the other, the later never serves a lower version |
| `PersistenceTheorems.RunSound` | services/parameter-server/app/services/persistence_loop.py:101-135 | The invariant of loop, registry and training holds in every reachable state |
| `Checkpoints.ParameterStorageService.StoreParameters` | services/parameter-server/app/services/parameter_storage.py:183-254 | The stored parameters become the next version, the first one for a new model |
| `Checkpoints.ParameterStorageService.CreateCheckpoint` | services/parameter-server/app/services/parameter_storage.py:367-440 | Fails exactly without parameters; otherwise adds the checkpoint, under the given identifier or the generated one, and enforces retention |
| `Checkpoints.ParameterStorageService.EnforceRetention` | services/parameter-server/app/services/parameter_storage.py:742-762 | Deletes the surplus of unprotected checkpoints, newest first |
| `Checkpoints.ParameterStorageService.DeleteCheckpoint` | services/parameter-server/app/services/parameter_storage.py:513-543 | Takes out the first checkpoint with the identifier, and its key |
| `Checkpoints.ParameterStorageService.LoadCheckpoint` | services/parameter-server/app/services/parameter_storage.py:442-486 | Returns the saved parameters, and restores them unless they are empty |
| `CheckpointTheorems.EnforceKeepsNewest` | services/parameter-server/app/services/parameter_storage.py:742-762 | Retention keeps protected checkpoints and min(count, retention) others, none older than one it deletes |
| `CheckpointTheorems.StoreEffect` | services/parameter-server/app/services/parameter_storage.py:183-254 | Stored parameters are version 1 of a new model and the next version of another |
| `CheckpointTheorems.CreateEffect` | services/parameter-server/app/services/parameter_storage.py:367-440 | With room for it a checkpoint is listed last with its version, kind and time, and keeps the parameters |
| `CheckpointTheorems.RetentionPolicy` | services/parameter-server/app/services/parameter_storage.py:742-762 | After any run with fresh identifiers best and final checkpoints are gone only if deleted by hand, at most `retention` others remain, and nothing newer than they was dropped |
| `CheckpointTheorems.LoadRestores` | services/parameter-server/app/services/parameter_storage.py:442-486 | Loading a listed checkpoint returns the parameters held at its creation and makes them version V+1; an unlisted one changes nothing |
| `CheckpointCollisions.ReusedIdKeepsOwnExactly` | services/parameter-server/app/services/parameter_storage.py:391-424 | Creating a checkpoint under an identifier in use: the older one still loads what it held if and only if retention spares the identifier and the model holds the same parameters |
| `CheckpointCollisions.GeneratedIdsCollide` | services/parameter-server/app/services/parameter_storage.py:391-394 | Generated identifiers of one model are equal exactly for the same version within the same second |
| `CheckpointCollisions.GeneratedLoadOwn` | services/parameter-server/app/services/parameter_storage.py:391-424 | In runs with generated identifiers a checkpoint that can be loaded always gives what was held when it was created |
| `CheckpointCollisions.ProtectedStayExactly` | services/parameter-server/app/services/parameter_storage.py:742-762 | One call of retention, exactly: every best and final checkpoint that could be loaded still can be if and only if none shares its identifier with a checkpoint of the surplus |
| `CheckpointCollisions.ProtectedKeptThroughout` | services/parameter-server/app/services/parameter_storage.py:742-762 | Over runs with any identifiers, exactly: best and final checkpoints not deleted by hand can be loaded throughout if and only if retention never strikes the identifier of one |
| `CheckpointCollisions.ListedSurvive` | services/parameter-server/app/services/parameter_storage.py:367-543 | Over runs with any identifiers, for every checkpoint whose identifier was not given out again: if listed it loads what was held at its creation, and a best or final one not deleted by hand is listed |
| `CheckpointCollisions.SameSecondTakesBest` | services/parameter-server/app/services/parameter_storage.py:391-424 | A best and an automatic checkpoint made within one second share an identifier, and retention takes the best one and its key |
| `CheckpointTheorems.RunKeeps` | services/parameter-server/app/services/parameter_storage.py:367-543 | List, keys and records agree in every reachable state |
| `JobQueueTheorems.SubmitKeeps` | services/task-orchestrator/app/services/job_queue.py:235-285 | A submission under a fresh identifier keeps all indices in step with the records |
| `JobQueueEffects.SubmitEffect` | services/task-orchestrator/app/services/job_queue.py:235-285 | A submitted job is pending, to be validated, and queued under its priority with the time of its submission |
| `JobQueueTheorems.ReusedJobIdInTwoSets` | services/task-orchestrator/app/services/job_queue.py:235-285 | Under an identifier in use the status sets stay exact if and only if the earlier job is still pending |
| `JobQueue.RedisJobQueue.UpdateJobStatus` | services/task-orchestrator/app/services/job_queue.py:289-364 | Succeeds exactly for a known job and a valid transition, and then is the update on values |
| `JobQueueEffects.Transitions` | services/task-orchestrator/app/services/job_queue.py:366-387 | The accepted transitions: all of the twenty listed and no others |
| `JobQueueEffects.UpdateEffect` | services/task-orchestrator/app/services/job_queue.py:289-364 | A valid update moves the job to its new status and status set and keeps everything else |
| `JobQueue.RedisJobQueue.AssignJobToWorker` | services/task-orchestrator/app/services/job_queue.py:390-433 | Succeeds exactly for waiting jobs; stores the worker, and not the shard numbers, which are set on a copy |
| `JobQueueEffects.AssignEffect` | services/task-orchestrator/app/services/job_queue.py:390-433 | An assigned job runs from now on with the worker that got it, is in its set, and in no queue |
| `JobQueue.RedisJobQueue.ReleaseJobFromWorker` | services/task-orchestrator/app/services/job_queue.py:435-488 | Succeeds exactly for the recorded worker |
| `JobQueueEffects.ReleaseEffect` | services/task-orchestrator/app/services/job_queue.py:435-488 | A released job has no worker and one retry more; running or timed out it has failed, failed already it is queued as of now |
| `JobQueue.RedisJobQueue.MarkValidationComplete` | services/task-orchestrator/app/services/job_queue.py:607-653 | Is the end of validation on values, for known jobs |
| `JobQueueEffects.ValidationEffect` | services/task-orchestrator/app/services/job_queue.py:607-653 | Passing makes a job wait and failing makes it fail, if it is not past that; either ends the validation |
| `JobQueue.RedisJobQueue.CancelJob` | services/task-orchestrator/app/services/job_queue.py:657-687 | Succeeds exactly for known jobs that are not terminal |
| `JobQueueEffects.CancelEffect` | services/task-orchestrator/app/services/job_queue.py:657-687 | A job that is not over is cancelled and leaves queues and worker; one that is over stays as it is |
| `JobQueue.RedisJobQueue.CleanupExpiredJobs` | services/task-orchestrator/app/services/job_queue.py:723-784 | Works through both sets as they were read, in some order, and counts what it expired |
| `JobQueueEffects.ExecutionTimeout` | services/task-orchestrator/app/services/job_queue.py:750-775 | A running job times out exactly when more than its time has passed since its start, and leaves its worker |
| `JobQueueEffects.ValidationTimeout` | services/task-orchestrator/app/services/job_queue.py:733-748 | A job in the pending set fails exactly when more than the limit has passed since its submission |
| `JobQueueEffects.CleanupFailsExpired` | services/task-orchestrator/app/services/job_queue.py:733-748 | Of the jobs found in the pending set a cleanup fails exactly those submitted longer ago than the limit and not completed or cancelled |
| `JobQueueEffects.CleanupStopsOverdue` | services/task-orchestrator/app/services/job_queue.py:750-775 | Of the running jobs it stops exactly those that have run longer than they may |
| `JobQueueEffects.ValidationsCounted` | services/task-orchestrator/app/services/job_queue.py:733-748 | It counts the jobs of the pending set submitted longer ago than the limit, each once |
| `JobQueueEffects.ExecutionsCounted` | services/task-orchestrator/app/services/job_queue.py:750-775 | And the running jobs past their time, each once |
| `JobQueue.RedisJobQueue.GetNextJob` | services/task-orchestrator/app/services/job_queue.py:504-546 | Returns a job if and only if it is the head (oldest, then by name) of its queue, can be handed out, and every more urgent queue is blocked; none exactly when all four are blocked; drops exactly the heads without a record that it meets |
| `JobQueueEffects.HandedOutFits` | services/task-orchestrator/app/services/job_queue.py:548-559 | What is handed out waits and needs no more of any resource than the offer has, CUDA and MPS only if offered |
| `JobQueueEffects.FrontIsHandedOut` | services/task-orchestrator/app/services/job_queue.py:504-546 | A job waiting at the front of the only queue that is not empty is handed out for every offer that covers it and every larger one |
| `JobQueueEffects.UrgentFirst` | services/task-orchestrator/app/services/job_queue.py:516-524 | Critical before high before medium before low: nothing is handed out past a front job that could be |
| `JobQueueEffects.FirstComeFirstServed` | services/task-orchestrator/app/services/job_queue.py:504-546 | Over runs, of the unstarted jobs of one priority the one handed out was submitted before all others, names deciding between equal times |
| `JobQueue.RedisJobQueue.GetQueueStats` | services/task-orchestrator/app/services/job_queue.py:691-719 | Counts per status are the sizes of the status sets, and the total adds them up |
| `JobQueueTheorems.StepKeeps` | services/task-orchestrator/app/services/job_queue.py:235-784 | Every operation keeps all indices in step with the records |
| `JobQueueTheorems.RunSound` | services/task-orchestrator/app/services/job_queue.py:235-784 | So in every reachable state each job is in exactly the set of its status |
| `JobQueueTheorems.CleanupKeeps` | services/task-orchestrator/app/services/job_queue.py:723-784 | So does a whole cleanup, in any order |
| `JobQueueTheorems.StatsCountJobs` | services/task-orchestrator/app/services/job_queue.py:691-719 | The statistics count every job exactly once |
| `JobQueueTheorems.QueuesAndWorkers` | services/task-orchestrator/app/services/job_queue.py:390-433 | Waiting jobs are in their own priority queue, running jobs in none, and no job in two worker sets |
| `JobQueueTheorems.ShardNumbersDropped` | services/task-orchestrator/app/services/job_queue.py:410-416 | In every run the stored list of shard numbers is empty |
| `JobQueueTheorems.DispatchedOnce` | services/task-orchestrator/app/services/job_queue.py:390-433 | At most one assignment of a job ever succeeds |
| `JobQueueTheorems.NextJobCanBeAssigned` | services/task-orchestrator/app/services/job_queue.py:504-546 | What `get_next_job` returns can be assigned and then is in no queue |
| `JobQueueTheorems.ReleaseNeverRetries` | services/task-orchestrator/app/services/job_queue.py:435-488 | Releasing a running job fails it, no release makes a job wait again, and nothing reaches the dead-letter list |
| `JobQueueTheorems.ReleaseRequeuesFailed` | services/task-orchestrator/app/services/job_queue.py:469-476 | The re-queueing branch runs for failed jobs only and leaves them failed in the queue |
| `JobQueueTheorems.SecondStartForgetsWorker` | services/task-orchestrator/app/services/job_queue.py:328-331 | An assignment goes to a worker the record does not name exactly when the job was started before for another one, or the name is empty |
| `JobQueueTheorems.BuriedExactly` | services/task-orchestrator/app/services/job_queue.py:435-653 | One operation, exactly: it leaves its job over and still queued if and only if it rejects the job before it was started, or is the release of the failed job by its recorded worker; the rejected one keeps its score, the released one gets the time of the release |
| `JobQueueTheorems.BuriedForever` | services/task-orchestrator/app/services/job_queue.py:289-784 | A job that is over and queued stays so for ever, in its place |
| `JobQueueTheorems.NothingBuriedExactly` | services/task-orchestrator/app/services/job_queue.py:235-784 | Over runs, exactly: no job that is over is queued if and only if no operation so far was of those two kinds |
| `JobQueueTheorems.ReleaseBuriesJob` | services/task-orchestrator/app/services/job_queue.py:469-473 | A run in which a release of a failed job is the first such operation |
| `JobQueueTheorems.LaterJobsStarve` | services/task-orchestrator/app/services/job_queue.py:516-538 | After either event, `get_next_job` never again returns a job behind that one in its queue, for any offer |
| `JobQueueTheorems.PendingExactlyThen` | services/task-orchestrator/app/services/job_queue.py:289-364 | Over runs, exactly: the pending set is the set of jobs to be validated throughout if and only if no operation takes a pending job past its validation |
| `JobQueueTheorems.BypassedJobFailsWhileRunning` | services/task-orchestrator/app/services/job_queue.py:723-784 | A pending job made waiting by a plain update stays in the pending set, and a cleanup fails it while it runs |

## Left out

- gRPC, HTTP, SQL, Redis and object-store plumbing; tables, keys and objects are maps.
- Serialisation, compression, hashing and signed URLs.
- Redis lock expiry, errors in the middle of a Redis sequence, and the in-memory fallback of the
  epoch and failure counters: there is one store.
- The workers and datasets tables, metrics and the artifact address written when a job completes.
- Heartbeats, worker registration, `RequestTask` and on-demand sharding in the orchestrator.
- `RoundRobin` over repeated worker identifiers; plans are lists in worker order.
- A second call of `assign_batches_to_workers` in ledger runs: it replaces worker entries and keeps
  old records, so progress may exceed 1. The method itself is modelled for any state.
- Records as shared objects: the assignment returned to a caller is a value, so later changes made
  through the distributor do not show in it.
- A direct `update_job_status` to PENDING or RUNNING in job-queue runs; see `SecondStartForgetsWorker`.
- Job-queue fields that no index depends on: messages, progress, metrics, completion times,
  validation details; `list_jobs`.
- Mixing `store_parameters` with `PushGradients` on one model, and `update_parameter` without a new
  version, which break the agreement of memory and Redis by design.
- Version listing, deltas and per-parameter access in the parameter storage; process restarts in
  checkpoint runs, which lose the list.
- Uploads to the registry under labels other than `v<number>`, the model row's state and hash, and
  several jobs feeding one model.
- Unicode spaces in batch scopes: the cleaning strips ASCII white space.
- Labels of mixed types, and how the loaders find the labels.
- Batch size recommendation, quality scores, shard statistics and storage of sample payloads.
- Gateway, authentication, groups, invitations, dashboard, command line, worker client, metrics
  bridge and semantic versioning.
