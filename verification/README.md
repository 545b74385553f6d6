# RAVEN: verified core

RAVEN is a job service on top of its own replicated log broker. This project
models the parts of it whose correctness depends on order, time and failure,
and proves what they promise over every input, every run or every reachable
state:

- **The job lease protocol** (`JobRows`, `LeaseProtocol`, `LeaseTiming`,
  `JobStore`). A jobs row is changed by guarded SQL statements; claims are fenced
  by a generation number and a lease. `LeaseProtocol` runs one row under any
  sequence of deliveries, renewals, finishes, crashes, sweeps, cancels, requeues
  and dispatches, with any number of workers acting on stale claims. `JobStore`
  is the table itself as the store functions, the sweeper and the dispatcher
  update it; each of its jobs is proved to be a run of `LeaseProtocol`.
- **Partition replication** (`Replication`, `ReplicationDurability`,
  `ReplicationNodes`). One leader and its followers over a network that loses,
  delays and repeats messages, with restarts of followers that may lose an unsynced
  tail, what the commit mark says about the followers' logs, and the methods that both
  sides run, tied to the protocol's steps.
- **Cron** (`Calendar`, `CronNext`, `CronWindow`, `CronWords`, `CronSpan`,
  `CronParser`, `CronGrammar`, `CronScheduler`). The expression parser with its 64-bit
  steps, and its grammar; the search for the next matching minute over the Gregorian
  calendar and its window; and the scheduler loop over rollbacks, replicas and outages.
- **Produce and placement** (`Produce`, `Placement`). Splitting a batch over
  partitions among other producers, and the ring that assigns partitions to nodes.
- **The priority semaphore** (`PrioritySemaphore`): permits, hand-overs that race
  cancellation, and aging.
- **Rate limiting** (`RateLimit`, `RateLimiter`, `RateFleet`): the in-process bucket,
  the Redis script and the websocket bucket, idle eviction, and N replicas failing
  open around one shared bucket. Amounts here are integers: with rpm units per
  nanosecond and sixty thousand million units per token the rate rpm/60 per second is
  exact.
- **Waits and headers of a denied caller** (`Float64`, `RetryAfter`, `RetryTiming`,
  `RetryShort`, `RetryRates`, `RetryHeader`, `ScriptHeader`, `ScriptRates`,
  `ScriptShort`, `ScriptTrails`, `ScriptRetry`). These turn on the last bits of the
  token count, so here the buckets are in binary floating point, operation by
  operation, under every rounding to nearest; where exact ties decide, under ties to
  even. The `Retry` modules treat the in-process store, the `Script` modules the header
  over the Redis script. `RetryShort` and `ScriptShort` check runs on integers;
  `RetryRates` and `ScriptTrails` are the runs they check, and `ScriptRates` the table of
  rates and headers at which the script's answer is enough.
- **Idempotent create** (`Idempotency`): any number of concurrent creates over a
  Redis that may lose anything and a table with a unique index.
- **The consumer group loop** (`Consumer`): fetch, handle, commit, advance under
  rebalances and stray commits, and the session's turn as a run of that group.

Clocks, random choices, hashes, handler results, network fates and the reply or
failure of every remote call are parameters of the steps. Every SQL statement,
transaction and Redis command is one atomic step with its guard. `Arithmetic` holds
one lemma on division.

## Where the code and its comments differ

The model follows the code. Where a comment, a name or a header promises more than
the code gives, a lemma shows the failing case and, where the promise can hold,
another gives the exact condition:

- The commit mark means "served to a majority", not "replicated to a majority"
  (`internal/broker/broker.go:528-543`): progress is recorded when a batch is sent,
  so in every cluster of two or more a record can be committed while only the leader
  holds it (`ReplicationDurability.CommitIsHeldIff`). The mark is held by a majority in
  every run whose proposals are made while the progress table is backed by the
  followers' logs and whose restarts keep what is marked
  (`ReplicationDurability.BackedRunsCommitWhatIsHeld`); with two replicas a restart that
  loses a marked record always undoes the mark
  (`ReplicationDurability.LostTailUndoesMark`).
- Two lost renewals are tolerated for every run exactly when the lease is at least
  150 ms, because of the 50 ms floor (`LeaseTiming.TwoFailuresTolerated`).
- Five years catch every schedule that has a later match but one kind: days that are
  exactly the February 29ths, asked in the 1091 days after the last one before a common
  century, which first happens in 2096 (`CronWindow.MissedExactlyInGap`,
  `CronWindow.GapLength`, `CronWindow.NextMissedYear`).
- A cron step close to 2^63 wraps: the field is accepted and holds negative values. An
  accepted expression means what is documented, and keeps its fields within bounds,
  exactly when no item's first value plus its step exceeds 2^63-1
  (`CronSpan.SpanRightIff`, `CronGrammar.FieldGrammar`, `CronParser.ParseCron`); the
  minute field `5/9223372036854775807` is a case (`CronParser.HugeStepStrays`).
- A cron slot moves forward exactly when the firing process's clock is not behind the
  slot; a process a second behind the database spawns the same minute twice
  (`CronScheduler.SlotAdvancesIff`, `CronScheduler.SkewFiresTwice`).
- The wait a denied caller is told is right to within one tick of its clock, not
  exactly (`RetryTiming.WaitIsTight`). The `Retry-After` header, rounded up to seconds,
  is enough at sixty requests a minute or more on either store
  (`RetryAfter.HeaderSufficesWhen`). Below that the stores differ. The in-process store
  falls short at every rate and burst (`RetryHeader.HeaderSufficesIff`). The Redis store,
  which the gateway uses by default, rounds the wait up to a millisecond first, and its
  header falls short exactly at 3 and 6 requests a minute, and at 9 and 18 with a burst
  of two or more (`ScriptRetry.ScriptSufficesIff`).
- Dropping idle buckets is invisible, and the promised rate is kept, exactly when the
  burst refills within the idle time: ten times rpm
  (`RateLimiter.SweepsUnobservableIff`, `RateLimiter.WindowBoundIff`,
  `RateFleet.FailOpenBoundIff`).
- Under a clock that steps back the Redis script keeps no bound at all
  (`RateLimit.ScriptBoundIsLost`).
- Releasing the Redis claim after a failed publish does not let a retry make a new
  job: the FAILED row keeps the key (`Idempotency.FailedPublishKeepsKey`,
  `Idempotency.FailedPublishIsReturned`).
- `terminal` in `services/jobs/model.go:183` lists DEAD, which a requeue resurrects;
  the absorbing statuses are SUCCESS, FAILED and CANCELLED
  (`LeaseProtocol.AbsorbingForever`).

## Model

| member | source | states |
|---|---|---|
| `LeaseProtocol.AcceptedWriteIsExclusive` | services/jobs/store.go:340-440 | in every reachable state an accepted renewal or finish comes from the worker named in the row, although no statement checks worker_id, and from the only unfinished claim of the row's generation |
| `LeaseProtocol.OpenClaimsNeverShareGeneration` | services/jobs/store.go:318-334 | no two unfinished claims share a generation, and one of the current generation exists only while the row is PROCESSING |
| `LeaseProtocol.StaleClaimIsInert` | services/jobs/sweeper.go:211-222 | once the generation has passed a claim, nothing it does in any continuation changes the row |
| `LeaseProtocol.StaleMessageNeverStarts` | services/jobs/store.go:318-334 | a message of a past non-zero generation never starts the job again, however often it is redelivered |
| `LeaseProtocol.FinishIsLast` | services/worker/worker.go:286-335 | after its finish a claim never writes again, in any continuation |
| `LeaseProtocol.AttemptsCountFinishes` | services/jobs/store.go:359-440 | attempts equals the accepted finishes since insert or last requeue, stays within max_attempts, leaves room in every row that may still run, so the sweeper never writes DEAD |
| `LeaseProtocol.CrashLoopBurnsNothing` | services/jobs/sweeper.go:211-222 | a crash loop of any length burns no attempt and never kills the job |
| `LeaseProtocol.EveryStatusChangeIsTaken` | services/jobs/model.go:192-210 | every status change of every run is an edge of the documented table, the sweeper's RETRYING self-loop or the reverted requeue; renewals and rejected writes change none |
| `LeaseProtocol.EveryTakenEdgeHappens` | services/jobs/model.go:192-210 | conversely every one of those edges is taken by some run |
| `LeaseProtocol.AbsorbingForever` | services/jobs/model.go:183-210 | SUCCESS, FAILED and CANCELLED rows never change again |
| `LeaseProtocol.SuccessIsFinal` | services/jobs/store.go:359-388 | after an accepted success no event of any continuation writes the row |
| `LeaseProtocol.DeadOncePerGeneration` | services/jobs/store.go:262-284 | deaths happen at strictly increasing generations |
| `LeaseProtocol.GenerationNeverFalls` | services/jobs/sweeper.go:211-222 | the generation never falls along a run |
| `LeaseProtocol.ClaimsPersist` | services/worker/worker.go:207-336 | a claim keeps its identity for the rest of the run and never reopens |
| `LeaseProtocol.StrandedJobIsRecovered` | services/jobs/sweeper.go:189-275 | a PROCESSING or RETRYING row always has a lease; the sweep is enabled exactly past it, keeps the attempts, outdates every claim and cannot fire again within its own lease |
| `LeaseProtocol.RetryLeaseCoversBackoff` | services/worker/worker.go:426-477 | the lease written with a retry outlives the backoff, so the sweeper never races the pending retry |
| `LeaseProtocol.ReachableInv` | services/jobs/store.go:117-146 | the row, claim and death invariants hold after every run from an insert |
| `LeaseTiming.TwoFailuresTolerated` | services/worker/worker.go:338-388 | runs in which one of any three renewals succeeds never become sweepable, for every such run if and only if the lease is at least 150 ms |
| `LeaseTiming.LeaseLagsTwoTicks` | services/worker/worker.go:356-388 | failures cost the lease at most two renewal intervals |
| `JobRows.RetryBackoffGrows` | services/worker/backoff.go:13-34 | the backoff never shrinks with the number of failures |
| `JobRows.RetryBackoff` | services/worker/backoff.go:23-34 | the backoff stays between 100 ms and 5 s for any count |
| `JobStore.JobIsProtocolRun` | services/jobs/store.go:117-511 | for any sequence of table operations and any id, the row and claims under that id are those of a lease-protocol run over just the events of that job: rows of different jobs share nothing, and every protocol theorem holds of every row |
| `JobStore.LiveClaimFence` | services/jobs/store.go:340-440 | an unfinished claim never has a generation above its row's; while the two are equal the row is PROCESSING under that worker with that attempt still open, and no other unfinished claim has the generation |
| `JobStore.Store.InsertJob` | services/jobs/store.go:117-146 | succeeds exactly for a new id; the job starts a protocol run, can be started at once or released exactly from its scheduled time, and no sweep can ever take it |
| `JobStore.Store.StartJobFence` | services/jobs/store.go:318-334 | a delivery wins exactly a startable row whose generation it names; the winner then holds the only live claim of that generation, with an attempt left, and no sweep takes the row within the lease; a loser changes nothing |
| `JobStore.Store.RenewJobLease` | services/jobs/store.go:340-351 | a live claim keeps its lease exactly while the row carries its generation, it is then the claim of the worker in the row, and a refused renewal ends the claim and changes nothing |
| `JobStore.Store.FinishJobSuccess` | services/jobs/store.go:359-388 | a live claim's success counts exactly while the row carries its generation, is then final and within the attempt limit; the attempt is recorded either way, a refusal means the generation has moved on, and the claim is spent |
| `JobStore.Store.FinishJobFailure` | services/jobs/store.go:396-440 | the same fence for a failure: DEAD, or RETRYING with an attempt left and out of every sweep's reach until the backoff is over |
| `JobStore.Store.CancelJob` | services/jobs/store.go:233-256 | a cancel is final and never hits a job that a live claim is running; otherwise it names the conflict or the missing job and changes nothing |
| `JobStore.Store.RequeueJob` | services/jobs/store.go:262-284 | a DEAD job gets all its attempts back under a generation above every claim ever made, so no earlier message or claim can touch it; anything else is refused unchanged |
| `JobStore.Store.AfterFailedPublish` | services/jobs/store.go:289-300 | after a refused publish a new job is FAILED for good and a requeued one can be requeued again, and neither happens once the job has left QUEUED |
| `JobStore.Store.TakeOver` | services/jobs/sweeper.go:189-250 | a takeover hits exactly an expired row, always finds an attempt left, so it never writes DEAD, and the row is out of the next sweep's reach |
| `JobStore.Store.RecoverJob` | services/jobs/sweeper.go:189-275 | recovers exactly an expired row, audits the attempt of the worker that lost it, and sends the new generation unless the publish fails |
| `JobStore.Store.SweepOnce` | services/jobs/sweeper.go:105-154 | a pass changes the table as recovering its candidates one by one would, counts what it recovered, and every message it sends carries its row's current generation |
| `JobStore.SweepRecoversEachOnce` | services/jobs/sweeper.go:105-154 | a pass recovers each listed expired row exactly once, even when listed twice, and leaves all others alone |
| `JobStore.PassShrinksBacklog` | services/jobs/sweeper.go:157-182 | one pass of at most a batch takes exactly that many rows, or all of them, out of the expired ones and adds none |
| `JobStore.SweepDrains` | services/jobs/sweeper.go:105-182 | n passes limited to a batch leave the backlog less n batches, so any backlog drains |
| `JobStore.DueIsComplete` | services/jobs/store.go:479-511 | below the batch limit no due row is left behind |
| `JobStore.Store.DispatchOnce` | services/jobs/scheduler.go:87-124 | releases the due batch all or nothing; messages sent before a refused publish stay on the broker, in order and with their generation |
| `Replication.RunKeepsInv` | internal/broker/replication.go:260-325 | the replication invariant holds along every run, the leader's log only grows and the commit mark never falls |
| `Replication.FollowersArePrefixes` | internal/broker/replication.go:500-581 | under loss, delay, repetition and restarts that may lose a tail every follower log is a prefix of the leader's, nobody is ever told to truncate, and an accepted answer always continues the log |
| `Replication.ReplicasAgree` | internal/broker/broker.go:598-619 | readers of one offset on any two replicas at any two moments see the same record |
| `Replication.CommitIsServedToMajority` | internal/broker/replication.go:221-256 | the mark stays within the log, everything below it was served to a majority, and no follower's mark exceeds it or its own log |
| `Replication.ProposalIsServed` | internal/broker/replication.go:221-256 | what the quorum rule proposes has been served to a majority |
| `Replication.AckedBatchStaysVisible` | internal/broker/broker.go:528-543 | once the mark has reached the end of a batch every later leader fetch in it returns its record |
| `ReplicationDurability.CommittedMayBeHeldByLeaderOnly` | internal/broker/replication.go:312-346 | in every cluster of two or more replicas some run commits a record that no follower holds |
| `ReplicationDurability.CommitIsHeldIff` | internal/broker/broker.go:528-543 | the commit mark is held by a majority in every run if and only if the leader is the only replica |
| `ReplicationDurability.BackedExactlyForEmptyBatches` | internal/broker/replication.go:329-346 | serving a waiting follower keeps the progress table backed by its log if and only if the batch is empty |
| `ReplicationDurability.ReceivedIsBacked` | internal/broker/replication.go:500-581 | receiving what was served makes the follower's entry true again |
| `ReplicationDurability.BackedProposalIsHeld` | internal/broker/replication.go:221-256 | while the table is backed a proposed mark is held by a majority |
| `ReplicationDurability.BackedRunsCommitWhatIsHeld` | internal/broker/replication.go:167-256 | in every run whose proposals are all made while the table is backed and whose restarts lose nothing below a mark, the commit mark is held by a majority in every state |
| `ReplicationDurability.LostTailUndoesMark` | internal/broker/storage/partition.go:403-410 | with two replicas every restart that loses a record below a mark leaves that mark without a majority |
| `Replication.UncorrelatedAnswer` | internal/broker/cluster/rpc.go:170-201 | an answer to another call keeps a follower's log a prefix if and only if it is empty, happens to continue the log, or quotes no higher log end: what the correlation check prevents |
| `ReplicationNodes.Leader.SetCommitted` | internal/broker/replication.go:167-183 | the mark only rises |
| `ReplicationNodes.Leader.CommittedFor` | internal/broker/replication.go:151-162 | readers never see a mark beyond the log |
| `ReplicationNodes.Leader.CountInSync` | internal/broker/replication.go:221-256 | counts the in-sync set with the leader and finds its least offset, with the 64-bit lag subtraction |
| `ReplicationNodes.Leader.MaybeAdvanceCommit` | internal/broker/replication.go:221-256 | the mark rises to what the quorum rule proposes, and stays while only a minority is in sync |
| `ReplicationNodes.Leader.HandleReplicate` | internal/broker/replication.go:260-325 | answers a continuous piece of the log within the limits and records exactly what was served, or asks for truncation beyond the log end; the mark moves only as the quorum rule lets it |
| `ReplicationNodes.HandledIsRun` | internal/broker/replication.go:260-346 | what a leader does with a request is a run of the protocol, serve and then perhaps propose and raise, so the protocol theorems hold of it |
| `ReplicationNodes.Follower.AppendReplica` | internal/broker/storage/replica.go:30-86 | appends exactly a continuing batch and refuses a gap without change |
| `ReplicationNodes.Follower.CutTo` | internal/broker/storage/replica.go:105-218 | truncates or resets forward as the replica function says |
| `ReplicationNodes.Follower.FollowOnce` | internal/broker/replication.go:500-581 | one answered round does to the follower exactly the protocol's receive step |
| `ReplicationNodes.Follower.FollowTruncate` | internal/broker/replication.go:586-614 | the truncation branch does exactly the protocol's |
| `ReplicationNodes.Follower.LearnCommitted` | internal/broker/replication.go:567-572 | a follower's mark rises, capped by its own log |
| `ReplicationNodes.Follower.ReadCapped` | internal/broker/broker.go:551-626 | a read returns only records below the mark, in order |
| `Placement.NodesAgree` | internal/broker/cluster/cluster.go:348-366 | nodes configured with the same distinct members in any order compute the same replicas and leader |
| `Placement.ReplicasAreDistinct` | internal/broker/cluster/cluster.go:348-366 | a partition's replicas are pairwise distinct configured nodes |
| `Placement.LoadIsEven` | internal/broker/cluster/cluster.go:348-366 | over any n consecutive partitions each of n nodes hosts exactly R replicas |
| `Placement.LeadershipIsEven` | internal/broker/cluster/cluster.go:348-366 | over any n consecutive partitions each node leads exactly one |
| `Placement.IthReplicaOnce` | internal/broker/cluster/cluster.go:348-366 | a node is the i-th replica of exactly one of any n consecutive partitions |
| `Placement.AscendingIsUnique` | internal/broker/cluster/config.go:197-208 | there is one ascending listing of given ids, so sorting removes the configuration order |
| `Placement.SortedIds` | internal/broker/cluster/config.go:197-208 | an ascending permutation of the configured ids |
| `Placement.SinkInto` | internal/broker/cluster/config.go:202-206 | the in-place inner loop extends the sorted prefix by one and permutes the array |
| `Placement.AssignmentFor` | internal/broker/cluster/cluster.go:348-366 | the replicas are the ring walk over the sorted ids, leader first, with the factor capped by the number of nodes |
| `Produce.ProduceIsExact` | internal/broker/broker.go:441-548 | result i names record i's partition and an offset at which the log now holds exactly that record |
| `Produce.ProduceKeepsOrder` | internal/broker/broker.go:441-548 | no two records share a slot and records of a partition keep request order |
| `Produce.ShareLandsOnce` | internal/broker/broker.go:60-79 | each partition's share lands once as one block among what others append; partitions without a share get only that |
| `Produce.Topic.AppendShare` | internal/broker/broker.go:60-79 | one writer round appends the share behind what others wrote, or nothing, and reports where it began |
| `Produce.Topic.AppendShares` | internal/broker/broker.go:500-547 | appends the shares in order until one fails; everything before the failure is in and reported |
| `Produce.Topic.ProduceBatch` | internal/broker/broker.go:428-549 | each refusal happens exactly under its condition, in the source's order, and leaves the logs alone; on success every partition's share lands exactly once as one block among what others append and every result names its record; when an append fails no share has landed twice |
| `Produce.Group` | internal/broker/broker.go:468-486 | groups every position under its own partition exactly once, the partitions in order of first appearance |
| `Produce.Scatter` | internal/broker/broker.go:525-527 | writes each offset back to the slot its record came from and leaves the others |
| `PrioritySemaphore.PermitsConserved` | services/worker/priority.go:176-236 | free, held and handed-over permits add up to the capacity after every interleaving, including a cancel that races a hand-over, and no permit is free while anyone waits |
| `PrioritySemaphore.PermitsConservedFromNew` | services/worker/priority.go:169-236 | the same for every run of a new semaphore, with the bounds on holders |
| `PrioritySemaphore.AgedIsNotOvertaken` | services/worker/priority.go:217-247 | a waiter that has spent its aging budget is never passed over for one that queued later |
| `PrioritySemaphore.AgedMovesUp` | services/worker/priority.go:219-236 | every event hands an aged waiter a permit, keeps its place or moves it up; every hand-over to another moves it up |
| `PrioritySemaphore.ServedWithinOlderPlusOne` | services/worker/priority.go:217-247 | it is served within its older waiters plus one hand-overs for every arrival pattern |
| `PrioritySemaphore.StrictPriorityStarves` | services/worker/priority.go:239-247 | with aging off that bound fails for every length of run |
| `PrioritySemaphore.PrioSem.Acquire` | services/worker/priority.go:176-190 | takes a free permit only when nobody waits, else queues at the back |
| `PrioritySemaphore.PrioSem.CancelWait` | services/worker/priority.go:191-208 | a cancelled waiter leaves the queue, or passes on the permit it was already handed |
| `PrioritySemaphore.PrioSem.Release` | services/worker/priority.go:211-215 | a released permit goes to a best waiter or becomes free |
| `PrioritySemaphore.PrioSem.GrantNextLocked` | services/worker/priority.go:219-236 | the scan picks the least effective rank, earliest on ties |
| `CronNext.Next` | services/jobs/cron.go:221-240 | the least matching minute strictly after the argument; failure if and only if the 1830-day window holds no match |
| `CronNext.NextFireIsUnique` | services/jobs/cron.go:221-240 | that minute is determined by the schedule and the argument |
| `CronNext.ScanDay` | services/jobs/cron.go:226-238 | one day of the search finds the day's least match not before the start, or shows there is none |
| `CronWindow.MissedExactlyInGap` | services/jobs/cron.go:34-37 | for every compiled schedule with a later match and every start, the search reports never if and only if the schedule's days are exactly the February 29ths and the start lies in a gap around a common century |
| `CronWindow.LeapOnlyRecurs` | services/jobs/cron.go:221-240 | a February 29th schedule always has a later match, so there that answer is wrong |
| `CronWindow.GapLength` | services/jobs/cron.go:34-37 | such a gap is the 1091 days after the last leap day before the common century |
| `CronWindow.NextMissedYear` | services/jobs/cron.go:34-37 | up to 2096 only 2096 opens one |
| `Calendar.DateOfSound` | services/jobs/cron.go:205-216 | a day number and its Gregorian date determine each other |
| `Calendar.DateFromComplete` | services/jobs/cron.go:205-216 | every valid date is the date of its day number |
| `CronParser.ParseCron` | services/jobs/cron.go:58-104 | accepts exactly an expression of five words that are well-formed fields and yields the sets they mean with sorted views for the search; every field is non-empty and within its bounds if and only if no step wraps |
| `CronParser.CompiledIff` | services/jobs/cron.go:58-104 | the compiled schedule is one the search can walk if and only if no step of its five fields wraps |
| `CronWords.WordsIff` | services/jobs/cron.go:59-63 | splitting at white space yields a list of words if and only if the text is those words with spaces around and between them |
| `CronParser.ParseCronField` | services/jobs/cron.go:113-179 | fails if and only if an item is malformed; otherwise exactly the folded values the items' 64-bit loops reach |
| `CronGrammar.ParseItemIff` | services/jobs/cron.go:113-192 | a list item is accepted and read as a span exactly when its text is in the grammar: a star, an unsigned value, or a range, each with an optional positive step; signs, leading zeros and the 64-bit limit included |
| `CronGrammar.FieldGrammar` | services/jobs/cron.go:113-179 | a field parses if and only if every item of its comma list is in that grammar; the values are the documented ones, every step-th of each span, if and only if no item's first value plus its step exceeds 2^63-1 |
| `CronParser.AddSpan` | services/jobs/cron.go:171-173 | terminates for every step and adds exactly the folded values the wrapping loop variable takes before it passes the upper bound |
| `CronSpan.SpanRightIff` | services/jobs/cron.go:171-173 | those are the documented step-th values of the span if and only if the first addition does not wrap, and any step up to 2^63-1 less the upper bound is small enough |
| `CronParser.FieldRightIff` | services/jobs/cron.go:113-179 | a parsed field has exactly the documented values if and only if no item's step wraps |
| `CronParser.HugeStepStrays` | services/jobs/cron.go:171-173 | the minute field 5/9223372036854775807 is accepted and holds a negative minute |
| `CronParser.ItemRoundTrip` | services/jobs/cron.go:113-169 | writing an item down and parsing it gives its span and step back |
| `CronParser.FieldRoundTrip` | services/jobs/cron.go:113-179 | a written field always parses, and to exactly the set its items describe if and only if none of their steps wraps |
| `CronParser.AtoiRoundTrip` | services/jobs/cron.go:182-192 | decimal digits read back as the number |
| `CronParser.SortedKeys` | services/jobs/cron.go:194-201 | the strictly ascending listing of the set |
| `CronScheduler.FiresAlternate` | services/jobs/cron_scheduler.go:82-170 | over any rollbacks, restarts, replicas and outages the committed jobs of a schedule are for strictly increasing matching minutes, each due before its fire and after the fire before it |
| `CronScheduler.NeverTwiceForOneMinute` | services/jobs/cron_scheduler.go:13-26 | a schedule never fires twice for one minute and fires in order |
| `CronScheduler.NeverBackfills` | services/jobs/cron_scheduler.go:25-26 | after a fire at or past a moment every later fire is for a minute past it |
| `CronScheduler.SlotAdvancesIff` | services/jobs/cron_scheduler.go:132-133 | the slot moves forward if and only if the firing process's clock has reached it |
| `CronScheduler.SkewFiresTwice` | services/jobs/cron_store.go:177-184 | a process a second behind the database spawns one minute twice |
| `CronScheduler.CronTable.FireCron` | services/jobs/cron_scheduler.go:121-170 | spawns for the stored slot and advances to the next match, or disables a row that cannot fire |
| `CronScheduler.CronTable.TickOnce` | services/jobs/cron_scheduler.go:82-116 | advances every due row once from where it stood, or, when a publish is refused, no row at all; messages already sent stay on the broker |
| `RateLimit.AdmittedWithinForward` | services/gateway/ratelimit.go:74-100 | whatever the clock does, a bucket admits at most its tokens plus the rate times the forward motion of its clock |
| `RateLimit.WindowBound` | services/gateway/ratelimit.go:74-100 | as long as the bucket is kept, at most burst plus rate times length in any window: for the gateway under readings in any order, for the script and the websocket bucket under a monotone clock; with evictions see RateLimiter.WindowBoundIff |
| `RateLimit.ScriptBoundIsLost` | services/gateway/ratelimit_redis.go:57-88 | under a clock that steps back no allowance holds: at every limit some run in one window admits more |
| `RetryTiming.RetriesKeepDeadline` | services/gateway/ratelimit.go:74-100 | in floating point, on either clock, at every rate and under every rounding to nearest: a lone caller's retries more than a tick before the reported wait is over are all turned away, the first one more than a tick after it passes, and each retry in between moves that moment by at most a thousandth of a tick |
| `RetryTiming.WaitIsTight` | services/gateway/ratelimit_redis.go:77-83 | what a denied caller is told, truncated by the gateway or rounded up by the script, is right to within one tick: turned away before, admitted after |
| `RetryAfter.HeaderSufficesWhen` | services/gateway/ratelimit.go:157-170 | at sixty requests a minute or more the header's seconds are enough after any requests before, on the in-process and on the Redis store |
| `RetryHeader.HeaderSufficesIff` | services/gateway/ratelimit.go:157-170 | on the in-process store the header is enough in every run if and only if rpm is at least 60 |
| `RetryShort.RunIsShort` | services/gateway/ratelimit.go:84-98 | a run whose every rounding is checked on integers ends in a header that is too short, whatever the rule for ties |
| `Float64.RoundsTo` | services/gateway/ratelimit.go:84-98 | a result strictly within half a unit of a 53-bit number rounds to it, under every rounding to nearest |
| `Float64.SomeRounding` | services/gateway/ratelimit.go:84-98 | a rounding to nearest with ties to even exists, so what is proved of all of them is not empty |
| `RetryHeader.HeaderFallsShort` | services/gateway/ratelimit.go:157-170 | on the in-process store at every lower rate and for every burst some run is told too little, under every rounding to nearest |
| `ScriptRetry.ScriptSufficesIff` | services/gateway/ratelimit_redis.go:57-88 | on the Redis store, with ties to even, the header is enough in every run if and only if the rate is none of 3 and 6, nor 9 or 18 with a burst of two or more |
| `ScriptRetry.ScriptSufficesWhen` | services/gateway/ratelimit_redis.go:77-83 | at every rate but those four it is enough, whatever the burst and the requests before |
| `ScriptRetry.SingleSuffices` | services/gateway/ratelimit_redis.go:77-83 | at 9 and 18 a bucket of one token only ever holds what one stretch of time has filled, and then the header is enough, under every rounding to nearest |
| `ScriptRetry.ScriptFallsShort` | services/gateway/ratelimit_redis.go:77-83 | at 3 and 6 for every burst, and at 9 and 18 for every burst of two or more, some run is told too little |
| `ScriptHeader.AllEnough` | services/gateway/ratelimit_redis.go:77-83 | at a rate whose middle headers are enough, every header is: waiting it out fills any token count that was told it |
| `ScriptHeader.EnoughBy` | services/gateway/ratelimit_redis.go:77-83 | a header is enough for every token count below one when one inequality on its rounded gain holds |
| `ScriptShort.TrailIsShort` | services/gateway/ratelimit_redis.go:57-88 | a run over the script whose every rounding is checked on integers ends in a header that is too short |
| `RateLimiter.SweepsUnobservableIff` | services/gateway/ratelimit.go:103-113 | for any calls in time order the answers are the same with and without drops, by the janitor or by the key's expiry, if and only if a full burst refills within the idle time |
| `RateLimiter.TenMinutesOfRequests` | services/gateway/ratelimit.go:30-38 | for the gateway's and the script's rates that is a burst of at most ten times rpm |
| `RateLimiter.SweptWindowBound` | services/gateway/ratelimit.go:74-113 | then the window bound holds in every run with drops |
| `RateLimiter.WindowBoundIff` | services/gateway/ratelimit.go:74-113 | the window bound holds in every run in time order with drops if and only if a full burst refills within the idle time |
| `RateLimiter.PotentialFalls` | services/gateway/ratelimit.go:74-113 | a request that passes takes one token from what its key may still admit, and neither time, requests nor drops add to it |
| `RateLimiter.KeysAreIndependent` | services/gateway/ratelimit.go:74-100 | a key's answers depend only on its own requests and the janitor |
| `RateLimiter.JanitorUnobservable` | services/gateway/ratelimit.go:103-113 | with burst at most ten times rpm no key of the whole limiter can tell that buckets are dropped |
| `RateLimiter.BurstAdmittedIff` | services/gateway/ratelimit.go:74-100 | n requests at one moment are all admitted if and only if n tokens are available |
| `RateLimiter.Limiter.Allow` | services/gateway/ratelimit.go:74-100 | the key's bucket takes the specified step and answer; no other key changes |
| `RateLimiter.Limiter.SweepOnce` | services/gateway/ratelimit.go:103-113 | drops exactly the idle buckets, in whatever order the map is walked |
| `RateLimiter.SharedBucket.Eval` | services/gateway/ratelimit_redis.go:57-88 | the script takes the specified step, rounding the wait up to a positive millisecond |
| `RateLimiter.TokenBucket.Allow` | services/websocket/ratelimit.go:39-57 | the connection's bucket takes the specified step |
| `RateFleet.FailOpenBound` | services/gateway/ratelimit_redis.go:187-211 | with sweeps of every replica and expiry of the key, N replicas around one Redis bucket let at most N+1 times one bucket's allowance through in any window, however Redis fails and whatever the circuits do, when a burst refills within the idle time |
| `RateFleet.FailOpenReachesBound` | services/gateway/ratelimit_redis.go:187-211 | from a clean start N+1 bursts do get through at one instant, for every rate and burst, so the factor cannot be lowered |
| `RateFleet.FailOpenBoundIff` | services/gateway/ratelimit_redis.go:187-211 | at every rate that bound holds in every run and window if and only if a burst refills before a replica may drop a bucket; below a request a nanosecond that is a burst of at most ten times rpm |
| `RateFleet.FallbackLimiter.AllowRequest` | services/gateway/ratelimit_redis.go:187-211 | an open circuit never asks Redis; a failed call opens it for 30 seconds; the answer comes from exactly one bucket, even when a timed-out script still spent a token |
| `Idempotency.OneRowPerKey` | services/jobs/store.go:117-146 | in every reachable state at most one row holds a key |
| `Idempotency.ReturnsTheKeysRow` | services/jobs/server.go:113-164 | every keyed create that returns a job returns the row holding the key, for every interleaving, outage, eviction and stale claim |
| `Idempotency.CreatesAgree` | services/jobs/idempotency.go:14-27 | the row that holds the key now is what every create of the key returns, now or at any later time |
| `Idempotency.FailedPublishKeepsKey` | services/jobs/server.go:184-199 | after a failed publish every later create of the key that returns a job returns that failed one |
| `Idempotency.FailedPublishIsReturned` | services/jobs/server.go:113-206 | such a run exists for every key: the publish fails, the claim is released, and the second create is answered with the FAILED job |
| `Idempotency.RowsPersist` | services/jobs/store.go:117-146 | a row and its key survive every continuation |
| `Idempotency.ReachableInv` | services/jobs/server.go:113-206 | rows, cached claims and every call in progress agree on which id was drawn for which key |
| `Consumer.CommittedIsHandled` | internal/broker/client/consumer.go:209-311 | in every run, everything below the committed group offset that is still on the broker has had its handler return nil |
| `Consumer.EveryCommittedOffsetIsHandled` | internal/broker/client/consumer.go:209-311 | without retention that is every offset below it |
| `Consumer.LostReplyRedelivers` | internal/broker/client/consumer.go:284-297 | after a commit whose reply is lost, applied or not, the member fetches the same batch again, so redelivery is among the runs the results cover |
| `Consumer.Session.HandleBatch` | internal/broker/client/consumer.go:259-280 | runs the handler in order up to the first error |
| `Consumer.Session.PollPartition` | internal/broker/client/consumer.go:240-299 | a commit goes out only for a batch handled to the end and right behind it; the position moves only on an accepted commit |
| `Consumer.TurnIsRun` | internal/broker/client/consumer.go:240-299 | what the session's turn on a partition handles, commits and moves to is a run of the group protocol, ending with the same position and the same handled records |
| `Consumer.Session.Round` | internal/broker/client/consumer.go:237-299 | a round fetches every partition from its position, commits only what it handled, leaves each position where its own poll puts it, and reports work, failure and rebalance exactly |

## Left out

- JobStore.Store.FinishJobSuccess: stated for a worker that finishes a claim it holds, as the worker does; a job that was never claimed is not finished.
- LeaseTiming.TwoFailuresTolerated: ticks happen at exact multiples of the interval and statements take no time.
- Replication.FollowersArePrefixes: a fixed leader without retention or compaction; elections and a leader restart, which resets the in-memory commit mark, are not modelled.
- Replication.CommitIsServedToMajority: liveness of the mark and of producers waiting for it is not claimed.
- Placement.AssignmentFor: hash plus partition is non-negative; the operator's overlay of assignments is not modelled and the FNV hash is a parameter.
- CronNext.Next: times from 1970 on, in UTC, and schedules within their bounds; what the search makes of the negative values a wrapped step leaves is not modelled, there or in the scheduler.
- RateLimit.WindowBound: amounts are exact, here and in RateLimiter and RateFleet; floating point is modelled where its last bits decide, in the waits and the header.
- RateLimiter.Limiter.Allow: the wait in the answer is the exact one; the wait in floating point is RetryTiming.WaitIsTight.
- RateFleet.FailOpenBound: Redis does not lose the key inside the window other than by its expiry.
- RetryHeader.HeaderSufficesIff: the "only if" at sixty is for the in-process store, ScriptRetry.ScriptSufficesIff has the Redis one; rates and bursts up to 2^53, moments that a 64-bit count of nanoseconds can hold; a product and the sum it goes into are rounded separately, so machines on which the compiler fuses them are not covered, and overflow and underflow are not modelled.
- ScriptRetry.ScriptSufficesIff: rounding is to nearest with ties to even, as the machine and Redis round; the same limits on rates and moments hold, and numbers go to Redis and back unchanged.
- RetryTiming.RetriesKeepDeadline: the clock does not step back, and numbers go to Redis and back unchanged.
- Idempotency.ReachableInv: claim and release are separate commands on values, because other calls run between them; ids drawn are assumed new, and normalisation of the key text is not modelled.
- Consumer.CommittedIsHandled: a fetch is assumed to return live records in order without skipping one; the coordinator is reduced to applying commits late, twice or never.
- Produce.Topic.ProduceBatch: an append that fails part-way in a later partition leaves the earlier ones in, as in the source; waiting for acks is covered by Replication.AckedBatchStaysVisible.
- Cluster membership: the alive set that feeds the in-sync rule is arbitrary.
- Error texts, timestamps other than leases, audit rows beyond the attempt number, dead-letter topics, events and metrics.
- Delivery of QUEUED jobs whose message was lost: the service does not promise it.
- Segment storage, wire codec, TLS, authentication, gateway handlers, CLI and SDK.
- Topic ranks and the parsing of priority topic lists: a waiter's rank is a parameter of the semaphore.
