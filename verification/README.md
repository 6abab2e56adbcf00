# Job queue verification

A Dafny model of the distributed job queue: the job lifecycle that the Go workers and the API run over the shared
PostgreSQL tables, and the algorithms it rests on. `dafny verify dfyconfig.toml` checks everything.

## What is modelled

**The lifecycle.** `JobStore` holds the tables `jobs`, `job_dependencies` and `dead_letter_queue` as one value with a
clock and the attempts that are under way, and describes every SQL statement or handler write group as an atomic step.
A step over many rows takes an arbitrary part of the eligible ones, which is what `FOR UPDATE SKIP LOCKED` allows. A
run is any sequence of enabled steps by any number of workers. `Lifecycle` proves an invariant for every step and says
exactly which runs keep it, `Guarantees` reads the promises off it, `Waiting` says what a waiting job waits for,
`Progress` exactly when it waits for ever, `DeadLetters` when a dead job's entry is open, and `Cascade` proves that
unblocking and cancelling settle one way.
`LateStart`, `LateRelease`, `StaleRetry` and `StrandedRun` are concrete runs of what can go wrong, built with `Runs`.
`Slots` is a worker's semaphore beside its poll loop. `Store` and `Creation` are the imperative side:
the poller's claim, the executor, the sweep, the job handlers and the dead-letter handlers as methods of a `Database`
whose fields are the tables. Each method that writes is proved to be exactly one step, so everything proved of runs holds
of them.

**The algorithms.** `Workflow` is the graph resolution of a batch (Kahn's algorithm over arrays, and the cycle witness).
`Mix`, `Shard` and `Topology` are rendezvous sharding, from the 64-bit mixer to which worker's claim sees which job.
`Lock` is the Redis lease lock with its fencing counter, `Delay` the retry back-off with Go's 64-bit arithmetic over
`FloatingPoint`, which defines the rounding of IEEE 754 binary64,
`GrantCache` and `GrantLookup` the authorization cache and its single-flight lookups, `TokenRefresh` the browser
client's token refresh. The concurrent ones are state machines over all interleavings, beside a class with the code's
own methods.

## Assumptions

- One clock for the database and all workers.
- Three writes go by the job's id or its status alone and may come too late: a start, a release, and the transaction of a
  dead-letter retry, which read its entry earlier. The code does not see to it that they find the job as it was. They
  are assumed to hurt nobody (`Sparing`), and that is the exact condition: over any run at all, the invariant holds in
  every state if and only if it is met (`Lifecycle.InvIffSparing`). A start or a release within 60 seconds of its claim
  meets it by itself, and so does a retry that nothing comes in between. What is said of reachable states holds for all
  such runs; `OnlyTheHolderWrites`, `CompletedUntilDeletedIff`, `HopelessForever` and `ClaimedIff` assume in addition
  that starts come within the 60 seconds (`Orderly`). An attempt that has not started by then counts as unable to write,
  although its start is still possible until its own deadline. The error of the start update is ignored in the source, so nothing there enforces it.
- Each handler's writes are one step. README.md:422-423 of the repository says so; the code issues separate statements in
  `handleSuccess`, `handleFailure` and the job retry.
- The database enforces unique ids and idempotency keys; new UUIDs, lock tokens and access tokens are fresh.
- In `Lock`, a round trip takes at most a third of the lease and renewals are punctual (`Punctual`); the body stops when
  its context is cancelled. In `GrantLookup`, a flight lasts at most `longest`. In `TokenRefresh`, nobody signs in or
  out while a refresh is awaited.

## Findings

- The start update goes by the job's id alone, so an attempt that starts more than 60 seconds after its claim runs the
  job beside the attempt that has it by then (`LateStart.LateStartLetsTwoExecute`; exact condition in
  `Lifecycle.StartKeepsInvIff`).
- `releaseClaim` checks the status and not `claimed_by`, so a late one can undo another worker's claim
  (`LateRelease.LateReleaseLetsTwoWrite`; exact condition in `Lifecycle.ReleaseKeepsInvIff`).
- A dead-letter retry that is overtaken takes the job from the attempt that holds it, or pulls a completed job back into
  the queue under its dependents (`StaleRetry`; exact condition in `Lifecycle.RetryKeepsInvIff`).
- A job created for later is queued when its time comes even if a dependency has died by then. Unless a
  user steps in it is never claimed, the sweep does not cancel it, and blocked jobs behind it wait for ever
  (`StrandedRun.StrandsAJob`, `Waiting.HopelessForever`; exact condition in `Progress.ClaimedIff`).
- A cron job never completes, so a job that depends on one is never claimed (`Guarantees.DependentsOfCronWait`).
- The sweep's cron statement never has anything to do in a reachable state (`Guarantees.CronSweepIsIdle`).
- With no retry policy, the delay wraps a 64-bit product from the 35th attempt on, and but for eight attempts the job is
  then retried at once
  (`Delay.NoPolicyExact`); a linear policy wraps as well (`Delay.LinearWraps`).
- An exponential delay is not always initial * multiplier^(n-1) cut to whole milliseconds, since the multiplier and every
  product are rounded to a float64: 100 ms with multiplier 1.15 gives 114 ms instead of 115 at the second attempt, and
  20 ms with the float64 nearest to 1.15 gives 23 ms instead of 22 (`Delay.StoredMultiplierFallsShort`,
  `Delay.RoundedProductOvershoots`). The condition under which no rounding error can matter is in
  `Delay.ExponentialExactIff`, and up to the 500000th attempt the error is at most a millisecond (`Delay.Binary64Near`).
- README.md:437 and Tradeoffs.md:161-162 of the repository describe all three strategies as capped; `fixed` is not
  (`Delay.FixedExact`), as API.md:299 says. API.md:303 gives `2^attempt` seconds as the delay with no policy; the code
  waits 2^(attempt - 1).
- A lookup that read the database before `invalidateUser` or `invalidateOrg` and finishes after it stores and serves the
  old answer (`GrantLookup.RemovedMemberIsServed`; exact condition in `GrantLookup.InvalidationIsFinalIff`).
- When the answer to a token refresh is lost, the client presents the same revoked token again
  (`TokenRefresh.PresentsExchangedIffLost` gives the exact condition).
- Lowering `shard_count` to another value above 1 strands jobs stored on the higher shards
  (`Topology.LoweredShardCountStrands`).

## Model

| member | source | states |
|---|---|---|
| Workflow.Resolve | api/internal/workflow/graph.go:37-112 | rejects exactly when a ref, count, empty or self check fails, naming the first failure; otherwise succeeds iff the internal dependency relation is acyclic, with an order that is a permutation placing every dependency first and the deduplicated references split by declared ref; a cyclic input gets a named cycle |
| Workflow.IndexRefs | api/internal/workflow/graph.go:38-47 | the ref index maps every declared ref to its only node, or the first duplicate is reported with the node it repeats |
| Workflow.SplitNode | api/internal/workflow/graph.go:57-83 | one node's references: the first bad one reported, or all of them split into distinct internal and external ones, with adjacency and indegree extended by exactly the internal ones |
| Workflow.TakeReference | api/internal/workflow/graph.go:72-81 | a reference not seen before becomes one edge of the adjacency and one more in the indegree, or one external id |
| Workflow.Drain | api/internal/workflow/graph.go:85-104 | Kahn's loop: an order without repetition in which dependencies come first, leaving indegrees that count, for every node, the dependencies not placed, so that a node is placed iff its indegree is zero |
| Workflow.Release | api/internal/workflow/graph.go:98-103 | placing one node takes exactly one from each dependent's indegree and queues exactly the nodes that reach zero |
| Workflow.PlaceHead | api/internal/workflow/graph.go:94-97 | moving the head of the queue into the order keeps the order sound and says by how much each indegree is now too high |
| Workflow.Ordered | api/internal/workflow/graph.go:106-111 | an order of full length is a resolution and the relation is acyclic; a shorter one leaves a node out |
| Workflow.OrderRanks | api/internal/workflow/graph.go:110 | the position in the order strictly falls along every dependency of the input |
| Workflow.FindCycle | api/internal/workflow/graph.go:114-160 | on the residue of Kahn's loop it terminates, never takes a fallback, and spells a cycle of the internal relation |
| Workflow.CycleIsNamed | api/internal/workflow/graph.go:126-143 | the cycle's labels are declared refs, the first equals the last, at least three of them, each depending directly on the next, none repeated |
| Workflow.CycleCloses | api/internal/workflow/graph.go:133-146 | the cycle found is a closed walk of the input's dependency relation |
| Mix.MixIsBijective | shared/shard/shard.go:20-27 | the mixer has an explicit inverse on both sides, on all 64-bit words |
| Shard.TieIffSumsCollide | shared/shard/shard.go:29-33 | two members tie on a shard iff their FNV sums are equal, and then on every shard |
| Shard.ScoresSeparateShards | shared/shard/shard.go:29-33 | one member's scores on two shards are equal iff the shards are |
| Shard.Owned | shared/shard/shard.go:35-68 | the owned shards, in increasing order, are those below the count, at most 64, on which no other non-blank member scores higher, or as high with a smaller id; order, duplicates and blanks do not matter |
| Shard.Best | shared/shard/shard.go:56-62 | the inner loop finds the one member that beats all others, smaller id on ties |
| Shard.BeforeIff | shared/shard/shard.go:57-58 | the tie break is the order of strings by their first difference |
| Shard.ScoreOfKnownMember | shared/shard/shard.go:20-33 | the scores of a member with the sum of "w1" on the first and the last shard |
| Shard.All | shared/shard/shard.go:70-79 | every shard below the count, at most 64, each once |
| Shard.OwnersPartition | shared/shard/shard.go:54-67 | workers that see the same members split the shard space: each shard has exactly one owner |
| Shard.LeavingMovesOnlyOwnShards | shared/shard/shard.go:54-67 | when a member leaves or joins, a shard changes owner only from the leaver or to the joiner |
| Topology.Poller.RefreshTopology | worker/internal/poller/poller.go:135-187 | a failed query keeps the old topology; a successful one replaces it by the queues split by shard count, the widest shard count and the shards owned |
| Topology.Poller.OwnedShards | worker/internal/poller/poller.go:189-204 | the rendezvous share, or every shard when the registry cannot be read |
| Topology.SkippedPollsMatchNothing | worker/internal/poller/poller.go:229-235 | the early returns of poll miss no job |
| Topology.VisibleIffInShardSpace | worker/internal/poller/poller.go:213-221 | whatever live workers each view misses, a queued job matches some worker's claim iff its queue is unsharded or its shard lies in the shard space |
| Topology.EqualViewsMatchOnce | worker/internal/poller/poller.go:189-204 | with equal views a job of a sharded queue matches exactly one worker |
| Topology.FallbackOnlyAdds | worker/internal/poller/poller.go:197-202 | a worker that cannot read the registry only gains matches |
| Topology.StoredShardStaysInSpace | shared/shard/shard.go:15-18 | a stored shard stays visible unless the queue's count was lowered to another value above 1 |
| Topology.StoredJobIsVisible | worker/internal/poller/poller.go:148-169 | every claimable job matches at least one worker's claim, whatever live workers each view misses, unless its queue's count was lowered to another value above 1 |
| Topology.LoweredShardCountStrands | worker/internal/poller/poller.go:148-169 | lowering 8 shards to 4 leaves a job of shard 7 that no worker's claim matches |
| Lifecycle.NextRow | worker/internal/executor/executor.go:164-219 | what each step does to one row, for every step of the lifecycle at once |
| Lifecycle.RowMoves | worker/internal/executor/executor.go:183-297 | no step with a timely start breaks a row, releases and dead-letter retries at any moment included; a completed row stays completed but for a dead-letter retry, and a row settles only with its dependencies completed |
| Lifecycle.HeldRowUntouched | worker/internal/poller/poller.go:491-500 | no orderly step of anyone else touches a row an attempt can still write |
| Lifecycle.LeasesKept | worker/internal/executor/executor.go:121-181 | every attempt that can still write finds its job claimed or running as its own, after every orderly step |
| Lifecycle.DlqKept | worker/internal/executor/executor.go:270-283 | one entry per job, every dead job has one, an unresolved one means a dead job, after every step with a timely start, any release included, unless a dead-letter retry names a job with another open entry |
| Lifecycle.DepsKept | worker/internal/poller/poller.go:213-221 | settled jobs keep their surviving dependencies completed, after every step with a timely start, any release included, unless a dead-letter retry names a job that a settled one depends on |
| Lifecycle.RankedKept | api/internal/handler/job.go:468-487 | the dependency table stays rankable, hence acyclic, after every step |
| Lifecycle.InvAlways | worker/internal/poller/poller.go:206-226 | the whole invariant holds along every run with timely starts whose releases and dead-letter retries spare the others, however late they are |
| Lifecycle.InvIffSparing | worker/internal/executor/executor.go:164-191 | over any run at all, whatever its timing, the invariant holds in every state iff every start, release and dead-letter retry finds nobody it would hurt |
| Lifecycle.StartKeepsInvIff | worker/internal/executor/executor.go:164-181 | a start at any moment keeps the invariant iff the row is as it was claimed with an attempt to spare, nobody else can write it, its dependencies are completed, no settled job depends on it and no open dead-letter entry names it |
| Lifecycle.TimelyStartSpares | worker/internal/executor/executor.go:176-179 | a start within 60 seconds of its claim and within its deadline meets that condition |
| Lifecycle.InvIffOrderly | worker/internal/executor/executor.go:183-191 | with timely starts, the invariant holds in every state of a run iff every release and every dead-letter retry in it spares the others |
| Lifecycle.OrderlyIsSparing | worker/internal/executor/executor.go:164-191 | every run with timely starts and sparing releases and retries is one in which no start hurts anyone either, so what holds of sparing runs holds of orderly ones |
| Lifecycle.LeasesIffReleasesSpare | worker/internal/executor/executor.go:183-191 | with timely starts and sparing retries, the leases hold in every state of a run iff every release undoes nobody else's claim |
| Lifecycle.ReleaseKeepsInvIff | worker/internal/executor/executor.go:183-191 | a release at any moment keeps the leases, and the whole invariant, iff the claim it undoes is not that of another attempt that can still write |
| Lifecycle.RetryKeepsInvIff | api/internal/handler/dlq.go:87-109 | requeueing the job an entry named when it was read, whatever became of the entry since, keeps the leases iff no attempt can write the job, the dependencies iff no settled job depends on it, the dead letters iff no other open entry names it, and the invariant iff all three |
| Lifecycle.FreshRetrySpares | api/internal/handler/dlq.go:65-109 | in the instant an unresolved entry is read, requeueing its job spares everyone |
| Guarantees.LeaseExclusivity | worker/internal/executor/executor.go:121-181 | in every reachable state at most one attempt is in time to write a job's row (started and before its deadline, or within 60 seconds of its claim), and the row is claimed or running under its worker |
| Guarantees.ReclaimSparesWriters | worker/internal/poller/poller.go:491-500 | reclaim never takes a job whose attempt is still in time to write |
| Guarantees.FinishFindsItsOwnJob | worker/internal/executor/executor.go:193-297 | every finish, guarded only by the id, finds the job running under its own worker with the count it expects |
| Guarantees.OnlyTheHolderWrites | worker/internal/executor/executor.go:176-179 | while an attempt is in time to write a row, no other orderly step changes it |
| Guarantees.ClaimedByTracksStatus | worker/internal/poller/poller.go:206-211 | claimed_by is set iff the job is claimed or running |
| Guarantees.TimelyReleaseSpares | worker/internal/executor/executor.go:183-191 | a release within 60 seconds of its claim undoes nobody else's claim |
| Guarantees.DependencySafety | worker/internal/poller/poller.go:217-221 | every claimed, running, completed, failed or dead job has all its surviving dependencies completed |
| Guarantees.CompletedUntilDeletedIff | worker/internal/executor/executor.go:217-220 | a completed job stays completed until deleted iff no stale dead-letter retry names it, over every orderly run, and a deleted id never comes back |
| Guarantees.DependencyTableAcyclic | api/internal/handler/job.go:468-487 | the dependency table is acyclic and names only stored jobs after any run at all, whatever its timing |
| Guarantees.DependentsOfCronWait | worker/internal/executor/executor.go:198-216 | a job that depends on a stored cron job is never claimed |
| Waiting.ChainEndsIff | worker/internal/poller/poller.go:371-424 | once no unblock and no cancel is possible, every maximal chain of waiting jobs upstream from a blocked one ends at a job that is claimed, running, failed, or queued or scheduled with all dependencies completed, iff it meets no queued or scheduled job with a dead or cancelled dependency |
| Waiting.NoMutualWaiting | worker/internal/poller/poller.go:371-424 | in every reachable state every blocked job has such a maximal chain, so nobody waits in a circle |
| Waiting.HopelessForever | worker/internal/poller/poller.go:351-424 | a job with a path of dependencies down to a dead, cancelled, failed or cron job is never claimed, in any state of any orderly run in which no user retries, cancels or deletes; new jobs may be created |
| Waiting.StrandedIsHopeless | worker/internal/poller/poller.go:410-424 | a chain that ends at a stranded job is the beginning of such a path |
| Progress.ClaimedIff | worker/internal/poller/poller.go:341-424 | wherever the invariant holds, a blocked, queued or scheduled job is claimed in some orderly continuation without a user iff no path of dependencies leads from it to a dead, cancelled, failed or cron job |
| Progress.Completes | worker/internal/poller/poller.go:206-226 | every other job with no such job upstream can be completed without a user, whatever attempts hold it or its dependencies, with every other row as it was or completed |
| StrandedRun.StrandsAJob | worker/internal/poller/poller.go:351-359 | a run that leaves a promoted job behind a dead dependency and a blocked job behind it, with nothing to unblock or cancel |
| Guarantees.DeadLetterAgreement | api/internal/handler/dlq.go:65-109 | at most one entry per job, every dead job has one, an unresolved entry's job is dead |
| DeadLetters.DeathOpensEntry | worker/internal/executor/executor.go:270-283 | the step that kills a job leaves it an unresolved entry that records the attempts it has used up, whether or not it had an entry before |
| DeadLetters.OpenSinceDeathIff | api/internal/handler/dlq.go:87-238 | over any run with sparing steps in which the job stays dead, that entry is unresolved at the end iff no discard and no dead-letter retry has named it since the death |
| Guarantees.CronSweepIsIdle | worker/internal/poller/poller.go:449-452 | no reachable state has a job the cron statement selects |
| Guarantees.AttemptsBounded | worker/internal/executor/executor.go:176-179 | the attempt count is at most the limit plus the reclaims from running since the last reset |
| Guarantees.FailureRequeuesBelowLimit | worker/internal/executor/executor.go:269-291 | a failure requeues iff the stored count is below the limit, and is final otherwise |
| Guarantees.StartsBounded | worker/internal/executor/executor.go:176-179 | between resets the count is the number of starts, so a job starts at most max_attempts times plus once per reclaim while running |
| LateStart.LateStartLetsTwoExecute | worker/internal/executor/executor.go:164-181 | a run in which an attempt whose claim was given up starts late but within its deadline, after which two attempts execute one job and either can finish it |
| LateRelease.LateReleaseLetsTwoWrite | worker/internal/executor/executor.go:183-191 | a run with timely starts and one release that undoes another's claim, after which two attempts can write one job |
| StaleRetry.StaleRetryLetsTwoWrite | api/internal/handler/dlq.go:65-109 | a run in which a retry reads its entry, a user's job retry deletes the entry and a worker claims the job, and the retry's transaction lets a second worker claim it too |
| StaleRetry.StaleRetryUndoesCompletion | api/internal/handler/dlq.go:65-109 | a run in which the job completes in between, its dependent is claimed, and the retry's transaction queues the completed job again |
| Cascade.CascadeConfluence | worker/internal/poller/poller.go:371-424 | any two interleavings of unblock and cancel statements over any unlocked rows that run to quiescence end each job at the same status, fixed by the starting state, with the same number of row changes, at most the number of blocked jobs |
| Cascade.QuietIsFate | worker/internal/poller/poller.go:410-424 | that status is queued iff all dependencies were completed, cancelled iff a path of blocked jobs leads to a dead or cancelled one, else blocked |
| Cascade.RunOnCourse | worker/internal/executor/executor.go:227-241 | every statement of the cascade moves jobs only to their fate, spending one blocked job per row change |
| Cascade.CascadeSettles | worker/internal/poller/poller.go:341-347 | quiescence is always reached |
| Store.Database.TakeBest | worker/internal/poller/poller.go:222-224 | the rows kept by the ORDER BY and LIMIT: as many as fit, and none left out outranks one taken |
| Store.Database.Poll | worker/internal/poller/poller.go:228-285 | one claim step over the best unlocked rows this worker's topology matches, up to its free slots, by priority and then due time, each row claimed now for this worker and submitted as an attempt of its own |
| Store.Database.SubmitAll | worker/internal/poller/poller.go:266-280 | each claimed row becomes one new attempt that remembers what the claim returned |
| Slots.SubmitNeverBlocks | worker/internal/poller/poller.go:237-280 | over every interleaving of a worker's poll loop with the goroutines of its jobs, claimed and running jobs never exceed its capacity and Submit finds a free slot at once |
| Slots.PollAsksForEverySlot | worker/internal/poller/poller.go:237-243 | a poll asks for as many rows as there are free slots, and for none when there is none |
| Slots.TwoLoopsBlock | worker/internal/executor/executor.go:81-93 | a run in which a second loop claims for the same slot and its Submit blocks |
| Store.Database.Run | worker/internal/executor/executor.go:121-124 | the attempt gets its deadline, and if it can still write, its job is claimed under its worker |
| Store.Database.StartExecution | worker/internal/executor/executor.go:164-181 | nothing when the execution record fails; the start step while the attempt's context lives, under this worker, which keeps the invariant iff it hurts nobody, and always if timely; the end of the attempt once its context has expired |
| Store.Database.ReleaseClaim | worker/internal/executor/executor.go:183-191 | the release step at any moment: a claimed job is queued for five seconds from now with nobody's claim on it, any other left alone; the invariant is kept iff that undoes nobody else's claim |
| Store.Database.HandleSuccess | worker/internal/executor/executor.go:193-219 | before the attempt's deadline the success step, which finds the job running under this worker: completed, re-armed, or failed on a bad cron expression; after it only the end of the attempt |
| Store.Database.HandleFailure | worker/internal/executor/executor.go:263-297 | before the attempt's deadline the failure step, which finds the job running under this worker: requeued for the policy's delay from now, or dead with an unresolved entry for it that records the count reached and no other entry touched; after it only the end of the attempt |
| Store.NoPolicyRetryTime | worker/internal/executor/executor.go:284-306 | with no policy the row of the n-th failed attempt comes due min(2^(n-1) s, 5 min) from now iff n is at most 34 or one of eight later attempts; for all others it is due at once |
| Store.SteadyRetryTime | worker/internal/executor/executor.go:284-316 | with a policy the row of the n-th failed attempt comes due the initial delay from now when it is fixed, and min(initial * n, max) from now when it is linear and the product fits 64 bits |
| Store.ExponentialRetryTime | worker/internal/executor/executor.go:284-326 | when it is exponential the row comes due min(initial * multiplier^(n-1), max) ms from now, cut to a whole number, if the products below the cap are representable or no rounding error can matter |
| Store.Database.Lose | worker/internal/executor/executor.go:122-123 | a crash, or a deadline that passed before the attempt could write: only the attempt is gone |
| Store.Database.UnblockDependents | worker/internal/executor/executor.go:227-241 | exactly the blocked, satisfied, unlocked dependents are queued |
| Store.Database.PromoteDueJobs | worker/internal/poller/poller.go:351-359 | exactly the project's due, unlocked scheduled jobs are queued |
| Store.Database.UnblockSatisfiedJobs | worker/internal/poller/poller.go:371-385 | exactly the project's satisfied, unlocked blocked jobs are queued |
| Store.Database.CancelUnsatisfiableJobs | worker/internal/poller/poller.go:410-425 | exactly the project's unlocked blocked jobs with a dead or cancelled dependency are cancelled |
| Store.Database.ScheduleCronJobs | worker/internal/poller/poller.go:449-488 | the cron step, which on a valid database changes nothing |
| Store.Database.ReclaimStuckJobs | worker/internal/poller/poller.go:491-500 | exactly the project's jobs stuck past their lease are requeued |
| Store.Database.Cancel | api/internal/handler/job.go:676-686 | cancels iff queued, scheduled or blocked, changing that status alone, else changes nothing |
| Store.Database.Retry | api/internal/handler/job.go:688-709 | retries iff failed, dead or cancelled, to queued or blocked by its dependencies, and drops its entry |
| Store.Database.Purge | api/internal/handler/job.go:726-738 | the job, its edges and its entry are gone |
| Store.Database.ReadEntry | api/internal/handler/dlq.go:64-85 | what the retry reads: missing iff not unresolved, retryable iff unresolved and handled, and then the job it names |
| Store.Database.RequeueEntry | api/internal/handler/dlq.go:87-109 | the retry's transaction over ids read at any earlier moment; it keeps the invariant iff nobody else has dealt with the job |
| Store.Database.RetryEntry | api/internal/handler/dlq.go:60-109 | both halves with nothing in between: requeues and resolves iff unresolved and handled, else changes nothing |
| Store.Database.RetryAll | api/internal/handler/dlq.go:131-183 | requeues exactly the project's unresolved entries a live worker handles; requeued plus skipped is the number of unresolved entries found |
| Store.Database.DiscardUnhandled | api/internal/handler/dlq.go:185-222 | resolves exactly the unresolved entries no live worker handles |
| Store.Database.DiscardEntry | api/internal/handler/dlq.go:224-238 | resolves the entry iff it exists |
| Creation.Dedupe | api/internal/handler/job.go:587-602 | the distinct trimmed non-blank references, each once |
| Text.TrimSpaceCuts | api/internal/handler/job.go:594 | what trimming removes from either end is white space, and nothing else is lost |
| Creation.ValidateDependencies | api/internal/handler/job.go:546-564 | 400 iff an id is unknown, 0 iff all are known and none is dead or cancelled, else 409 |
| Creation.CheckCreate | api/internal/handler/job.go:266-304 | what Create reads before its transaction, with 400, 404, 409 and 500 each for exactly their reasons; 500 iff a dependency is no UUID |
| Creation.StoreOne | api/internal/handler/job.go:306-345 | the transaction over states read at any earlier moment: 409 iff the key is taken or the queue gone by now, 500 iff otherwise a dependency is gone, else exactly the planned edges and row, every column as the request was sent with its defaults |
| Creation.EarlyReadIsSafe | api/internal/handler/job.go:285-304 | a dependency completed when it was read is completed or gone when the row goes in, over any orderly steps in between, unless a stale dead-letter retry named it |
| Creation.Create | api/internal/handler/job.go:266-360 | both with nothing in between: accepts iff valid, queue known, at most 64 distinct dependencies, all UUIDs of jobs of the project able to complete, key free; then stores exactly the requested edges and the row column by column as it was sent (5, 3 and 300 for a priority, attempt limit or timeout of 0; scheduled, due and armed later iff it names a later time), which unless scheduled for later waits iff a dependency is incomplete; 400, 404, 409 and 500 each for exactly their reasons, and a rejection changes nothing |
| Creation.InsertRows | api/internal/handler/job.go:435-475 | a request is skipped iff its key is stored or belongs to an earlier request; every other one becomes the row it asks for under its own id, every column as sent with its defaults |
| Creation.InsertEdges | api/internal/handler/job.go:477-496 | fails iff an inserted request depends on a skipped one or on a job that is gone, else yields exactly the internal and external edges |
| Creation.BatchInsertable | api/internal/handler/job.go:468-496 | the order Resolve found ranks the new rows, so inserting the batch keeps the dependency table acyclic |
| Creation.BatchWaits | api/internal/handler/job.go:440-449 | every new row is queued only if its dependencies are completed and blocked only if one is not |
| Creation.SoundIffPasses | api/internal/handler/job.go:384-400 | dropping blanks and duplicates before Resolve does not change its verdict on the requests as sent |
| Creation.BatchRecords | api/internal/handler/job.go:477-496 | the edges written are exactly the references of the inserted requests, each ref replaced by the id of the request declaring it |
| Creation.StoreBatch | api/internal/handler/job.go:418-502 | the transaction over states read at any earlier moment: accepts iff no request that is stored waits for a skipped one or for a job that is gone; then rows as planned from those states and all edges, in one step; when the queue is gone every request is skipped |
| Creation.CreateBatch | api/internal/handler/job.go:362-520 | with nothing between reads and transaction: accepts iff 1 to 1000 sound requests forming an acyclic workflow, external references UUIDs and satisfiable, none stored waits for one skipped; then all rows, each column as sent with its defaults, and all edges are stored in one step with count plus skipped equal to the requests; 400, 404, 409 and 500 each for exactly their reasons, and a rejection changes nothing |
| Lock.GuardMutualExclusion | shared/lock/lock.go:112-167 | in every punctual run of any number of contenders no two bodies for a key run at one instant, the body's token is still stored, and no answered refresh reports it lost |
| Lock.OthersSpareTheOwner | shared/lock/lock.go:18-30 | nothing anyone else does, late commands included, changes the owner's key or expiry |
| Lock.LeaseEnds | shared/lock/lock.go:18-30 | over all runs, a token for which no set and no refresh has run for longer than the lease is not stored any more |
| Lock.FirstSetWins | shared/lock/lock.go:45-56 | over all runs, once no command has run for longer than the lease, the first SET NX wins and stores its token for exactly one lease |
| Lock.RefreshExtendsIff | shared/lock/lock.go:24-30 | a refresh in flight extends the expiry to exactly one lease from now, and is answered so, iff its token is stored and unexpired |
| Lock.LeaverReleases | shared/lock/lock.go:164-167 | a client that leaves has its release under way, which frees the key if it still owns it |
| Lock.OrdinaryHandover | shared/lock/lock.go:112-167 | a punctual run through acquisition, renewal, release and the next client's acquisition with the next fence |
| Lock.FencesAreUnique | shared/lock/lock.go:58-65 | no two acquisitions get the same fence, over all runs |
| Lock.HeldFencesDiffer | shared/lock/lock.go:58-65 | no two clients that run their bodies hold the same fence, over all runs |
| Lock.FencesFollowOwnership | shared/lock/lock.go:58-65 | a token whose INCR ran while it was stored has a smaller fence than every later owner, over all runs |
| Lock.PunctualFencesIncrease | shared/lock/lock.go:45-65 | in punctual runs fences strictly increase in order of ownership |
| Lock.LateIncrBreaksOrder | shared/lock/lock.go:58-65 | an INCR after its own token expired gives the earlier owner the larger fence |
| Lock.OverdueBodiesOverlap | shared/lock/lock.go:139-167 | without punctuality two bodies run at one instant |
| Lock.Server.Acquire | shared/lock/lock.go:45-66 | succeeds iff the key was absent and both commands are answered, with the next fence; not acquired leaves key and counter alone; a failed INCR takes its own token back |
| Lock.Server.Refresh | shared/lock/lock.go:68-77 | leaves the expiry at exactly now plus the lease's lifetime iff the token is stored and unexpired, else leaves the key alone and reports the loss |
| Lock.Server.Release | shared/lock/lock.go:79-83 | removes the key iff the token is stored and unexpired, else leaves key and expiry alone |
| Delay.CalcDelay | worker/internal/executor/executor.go:299-327 | doubling seconds up to 5 min for 34 attempts with no policy, else the initial delay, min(initial * n, max) or min(initial * multiplier^(n-1), max) as the strategy says, wherever 64 bits and representable products allow it; the rows below say what happens elsewhere |
| Delay.NoPolicyExact | worker/internal/executor/executor.go:300-306 | the delay is min(2^(n-1) s, 5 min) iff n is at most 34 or one of eight later attempts; for all others it is at most zero; it never exceeds 5 minutes |
| Delay.NoPolicyGrows | worker/internal/executor/executor.go:300-306 | the delay never decreases up to the 34th attempt, and does at the 35th |
| Delay.FixedExact | worker/internal/executor/executor.go:309-310 | the fixed delay is the initial one, within the cap iff the initial delay is |
| Delay.LinearExact | worker/internal/executor/executor.go:311-316 | the delay of a linear policy is min(initial * n, max) ms iff the product fits 64 bits or happens to wrap to the cap or above it; it never exceeds the cap in whole ms, and is the cap or the product up to a multiple of 2^64 |
| Delay.LinearGrows | worker/internal/executor/executor.go:311-316 | while the product fits, the delay is capped and never decreases |
| Delay.LinearWraps | worker/internal/executor/executor.go:311-316 | a policy within the column range whose linear delay is negative |
| Delay.ExponentialCapped | worker/internal/executor/executor.go:317-326 | under any monotone rounding of the products the delay is the smaller of the grown delay and the cap, cut to whole ms, never above the cap and equal to it once reached |
| Delay.ExponentialExactIff | worker/internal/executor/executor.go:317-326 | for any relative error u below 1 in reading the multiplier and in each product, the delay is min(initial * multiplier^(n-1), max) ms cut to a whole number under every such rounding iff initial * multiplier^(n-1) times (1-u)^(2(n-1)) and times (1+u)^(2(n-1)), capped and cut, are the same |
| Delay.GrownBetween | worker/internal/executor/executor.go:317-321 | between those two factors the loop always ends |
| Delay.ExponentialNear | worker/internal/executor/executor.go:317-326 | the delay is at most 1 ms off when the two capped extremes are less than 1 ms apart |
| Delay.Binary64Near | worker/internal/executor/executor.go:317-326 | in binary64 every policy is at most 1 ms off up to the 500000th attempt |
| Delay.ExponentialExact | worker/internal/executor/executor.go:317-326 | the delay is exactly min(initial * multiplier^(n-1), max) ms cut to a whole number when the multiplier and the exact products below the cap are representable |
| Delay.WholeMultiplierExact | worker/internal/executor/executor.go:317-326 | so it is at every attempt for a whole multiplier, such as the default 2.0, under any monotone rounding that keeps 32-bit integers |
| Delay.StoredMultiplierFallsShort | worker/internal/poller/poller.go:287-297 | 100 ms with multiplier 1.15 waits 114 ms at the second attempt, where the product is 115 |
| Delay.RoundedProductOvershoots | worker/internal/executor/executor.go:318-321 | 20 ms with the float64 nearest to 1.15 waits 23 ms at the second attempt, where the product is short of 23 |
| FloatingPoint.Binary64IsRounding | worker/internal/executor/executor.go:318-321 | round to nearest even with 53 bits is monotone, idempotent, keeps 32-bit integers and errs by at most 2^-53 of the value, so all of this holds of float64 |
| FloatingPoint.Binary64IsNearest | worker/internal/executor/executor.go:318-321 | no float64 is nearer to a number than its rounding |
| FloatingPoint.ExactIsRounding | worker/internal/executor/executor.go:318-321 | exact arithmetic is such a rounding too, and the only one without error |
| Delay.ExponentialGrows | worker/internal/executor/executor.go:317-326 | under any monotone rounding the delay never decreases with the attempt |
| GrantCache.KeysAreDistinct | api/internal/authz/authz.go:163 | two lookups share a cache key only when they are about the same parameter, id and user, whatever the id contains |
| GrantCache.Cache.Get | api/internal/authz/cache.go:29-37 | an entry is served iff present and not expired |
| GrantCache.Cache.Put | api/internal/authz/cache.go:39-46 | room is made, the answer stored for 15 seconds, the limit of 8192 kept |
| GrantCache.Cache.EvictLocked | api/internal/authz/cache.go:48-66 | exactly the expired entries go; if the map is still full, exactly half of the rest |
| GrantCache.Cache.Lookup | api/internal/authz/authz.go:162-179 | one request alone: a fresh entry is served and nothing changes; otherwise the database's answer is served and stored, and an error is passed on unstored |
| GrantCache.Cache.InvalidateUser | api/internal/authz/cache.go:68-76 | exactly the user's entries go |
| GrantCache.Cache.InvalidateOrg | api/internal/authz/cache.go:78-86 | exactly the entries granted in the organization go |
| GrantLookup.CacheRefinesDirectLookup | api/internal/authz/authz.go:162-179 | over every interleaving each answer served is what the database said of that resource and user at an instant at most 15 s plus one flight earlier, and the map never exceeds 8192 entries |
| GrantLookup.AskHitsIff | api/internal/authz/cache.go:29-37 | a request is answered at once, with the entry, iff its key has an unexpired one |
| GrantLookup.FinishServesWaiters | api/internal/authz/authz.go:168-178 | a flight that has cached its answer gives it to everyone waiting for its key and to nobody else |
| GrantLookup.AnswerLasts | api/internal/authz/cache.go:39-46 | a cached answer is served to everyone who asks for its key within 15 seconds, over any run in which no invalidation concerns it and no eviction or other answer takes its place |
| GrantLookup.AnswerExpires | api/internal/authz/cache.go:29-46 | a run in which the cached answer is served at 15 seconds and missed a millisecond later |
| GrantLookup.FailedQueryServesNobody | api/internal/authz/authz.go:168-178 | a failed query caches nothing, serves nothing and ends its flight and everyone waiting for it |
| GrantLookup.PastIsTheRun | api/internal/authz/authz.go:162-179 | the instants these answers are compared with are the run's own states |
| GrantLookup.InvalidationIsFinalIff | api/internal/authz/cache.go:68-86 | after invalidateUser or invalidateOrg some continuation serves an earlier answer about the user, or granted in the organization, iff a flight with such an answer had already read the database |
| GrantLookup.RemovedMemberIsServed | api/internal/authz/authz.go:162-179 | a run in which a membership is removed and the user invalidated, and a lookup that had read before still stores and serves the grant |
| TokenRefresh.SingleFlight | web/lib/api.ts:41-66 | over every interleaving at most one refresh call is under way, and every request waiting on an unsettled call waits on that one |
| TokenRefresh.PresentsExchangedIffLost | web/lib/api.ts:43-58 | a refresh presents an already exchanged token iff the pair that exchange issued never reached the page |
| TokenRefresh.LostAnswerPresentsAgain | web/lib/api.ts:59-63 | a run in which a lost answer makes the client present a revoked token |
| TokenRefresh.ReplaysAreFresh | web/lib/api.ts:68-97 | each request is sent at most twice, and a replay carries an access token at least as new as the refresh it awaited |
| TokenRefresh.SentAgainIffArrived | web/lib/api.ts:53-87 | over every interleaving, a request that waited for a refresh is sent a second time, with the page's access token of that moment, iff the call's new pair has reached the page; otherwise it gives up after one send |
| TokenRefresh.SettlesIffArrives | web/lib/api.ts:50-65 | a call settles with a token iff its new pair arrived |
| TokenRefresh.ExpiredTokenIsReplaced | web/lib/api.ts:43-87 | the ordinary run: a denied request, a refresh, and the request sent again with the new token |
| TokenRefresh.RefusedTokenEndsSession | web/lib/api.ts:50-89 | the run in which the refresh is refused: the request is sent once, and signing out drops the pair |
| TokenRefresh.Client.RefreshAccessToken | web/lib/api.ts:43-66 | joins the call under way or sends one with the current token |
| TokenRefresh.Client.Responded | web/lib/api.ts:80-86 | the segment of req after a response, as one step |
| TokenRefresh.Client.RefreshArrived | web/lib/api.ts:53-65 | the segment that stores the new pair and settles the call with its access token, or settles it with nothing and keeps the tokens |
| TokenRefresh.Client.RefreshFailed | web/lib/api.ts:61-65 | the segment after a rejected call: it settles with nothing and the tokens stay |
| TokenRefresh.Client.Resumed | web/lib/api.ts:82-87 | the segment of req after its refresh: sent again with the page's token iff the call settled with one |

## Left out

- HTTP, JSON, WebSocket and authentication plumbing, pages and components, logging, metrics and health checks.
- Redis publish/subscribe events and nudges: they affect latency only.
- The worker heartbeats, the demo generator, the Groq summarizer and the queue concurrency limit.
- Last-owner protection of organizations: changing a member's role may remove the last owner, so it is no invariant.
- Deleting a queue or a project with its jobs; a single job's deletion and its cascades are the `Delete` step.
- Fields no step reads: payload, tags, error texts, batch ids, logs and execution records. Order of the returned rows.
- Store.Database.RequeueEntry: takes any entry and job; that a request read them together earlier is not recorded.
- FloatingPoint.Binary64: no bound on the exponent and no subnormals; a delay is 0 or at least 1, and past the cap its
  size does not matter.
- Delay.ExponentialGrows: stated for multipliers of at least 1; a smaller one shrinks the delay by design.
- Waiting.ChainEndsIff: says where the waiting leads, not that the job there will be claimed.
- Progress.ClaimedIff: some continuation claims the job; no fairness of the workers is assumed that would make it all.
- Shard.Owned: the score is any function of member and shard; FNV-64a itself is not modelled, and the sort is left out
  because any order of the members gives the same result.
- Topology.VisibleIffInShardSpace: all workers serve the same queues, and no view lists a worker that is gone.
- Lock.GuardMutualExclusion: time is counted in units in which the lease is whole; the retry ticker's period is free.
- GrantLookup.CacheRefinesDirectLookup: a query that fails is not cached and its error is passed on, so it serves no
  answer; cancelled requests are not modelled.
- TokenRefresh.SingleFlight: fetch always suspends, and the callbacks `onTokens` and `onAuthLost` do not change the tokens.
