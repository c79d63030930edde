# Verified models of the framework's coordination protocols and encoders

This project models, in Dafny, the parts of the framework where correctness depends on every interleaving, every run or
every input, and proves what they promise. `dafny verify dfyconfig.toml` checks all of it.

Protocols are step systems: a state, the steps that may happen next (`Enabled`, `Do`), and theorems over every run. A step
is one lock section, one atomic access, one store verb or one command on a connection. Code that loops or updates fields is
written as methods and classes and tied to the functions the theorems are about. Times, counts and tokens are mathematical
integers.

| file | what it models |
|---|---|
| `Basics.dfy`, `Decimal.dfy`, `Base64.dfy` | cutting and splitting, base-10 text, unpadded base64 |
| `LocalSubscriptions.dfy` | the sharded subscription manager of one process: subscribe, deliver, end and take-updates racing one another |
| `SubscriptionCounts.dfy`, `SubscriptionStreams.dfy`, `SubscriptionOrder.dfy` | what its owner learns of the counts; what each subscription receives, topic by topic and over all its topics |
| `BrokerLoop.dfy`, `RedisBroker.dfy` | the Redis broker's loop as code, and the whole broker with FIFO channels to and from Redis |
| `BrokerAnswers.dfy`, `BrokerStreams.dfy` | what becomes of every wait, and the way of a message from Redis to a subscription |
| `Buckets.dfy`, `LimiterBound.dfy` | token buckets: the arithmetic, the in-memory limiter, and how much it admits under cleanups |
| `SharedBuckets.dfy`, `BucketRuns.dfy` | one KVDB bucket under any number of instances; whole calls as parts of particular runs |
| `StaleReadings.dfy`, `KeyLifetimes.dfy` | what calls with old clock readings do to such a bucket, and what happens between a swap and the setting of the key's lifetime |
| `Locking.dfy` | locking over an internal ledger per instance and one external ledger, and the manager's code |
| `TokenLadder.dfy` | the refresh-token ladder on one row, over any number of requests |
| `ServiceGraph.dfy`, `Lifecycle.dfy` | registration, sealing and levels; the start, rollback and terminate walks |
| `SqlConditions.dfy`, `SqlReader.dfy`, `SqlRoundTrip.dfy`, `SqlMeaning.dfy` | condition trees rendered to text, an independent reader of that text, and the proof that meaning survives |
| `SqlStatements.dfy`, `PgStatements.dfy` | placeholder translation and the PostgreSQL statements |
| `EventStream.dfy` | the byte-at-a-time event-stream reader against the standard's line-by-line reading |
| `Keyring.dfy`, `Argon2id.dfy` | cipher contexts and the keyring envelope; the Argon2id PHC string |
| `JobClaims.dfy` | cross-process job claims under skewed clocks |

## What turned out differently from the code's comments

- Dropping an idle bucket and creating it full again is called "the same thing" as keeping it
  (`gw/throttle/limiterkvdbbuckets.go:308-310`, `gw/throttle/limiterinmembuckets.go:249-251`). It is, exactly when the next
  call comes a whole number of periods after the bucket's last refill moment (`Buckets.DropIffAligned`); otherwise the
  two refill out of step and the new bucket can admit more (`Buckets.DropExample`).
- The bound on admissions from a KVDB bucket holds when no call re-creates a forgotten bucket with a clock reading older
  than the moment the forgotten one was full again, counted from the last write that may have admitted a call
  (`SharedBuckets.AdmissionsBounded`). A reading taken after the key was forgotten is such a one, unless a call that had
  swapped had yet to set the key's lifetime (`SharedBuckets.ReadAfterForgetting`). With old readings some run exceeds the
  bound, whatever the bucket's parameters (`StaleReadings.BoundNeedsPunctual`); readings a single tick too old are enough
  for every bucket whose increment is below twice its burst (`StaleReadings.StaleCreationExceeds`).
- The swap keeps the key's lifetime and a second verb sets it, so a key can be forgotten in use. With all re-creations
  reading the clock after the forgetting, the bound then holds in every run if and only if the increment is at least twice
  the burst (`KeyLifetimes.TimelyIsEnoughIff`).
- A remembered refusal agrees with the store at the present moment in every run that forgets no key after a swap and before
  its lifetime is set (`SharedBuckets.MemoryNeverLies`). A swap that lands and answers an error sets none, and then, for
  every bucket, the memory can refuse a call the store would admit (`KeyLifetimes.MemoryOutlivesKey`). So can it for a call
  whose reading is older than a refill that has landed since and has tokens left (`SharedBuckets.MemoryAtOlderReading`,
  `StaleReadings.MemoryOutlivesRefill`).
- The in-memory limiter's cleanup looks at a bucket under its lock and removes it after releasing that. For calls that use
  their bucket at the moment they read the clock, the limiter keeps the bound exactly when its cleanup age is at least the
  time two bursts need to grow, less one tick (`LimiterBound.BoundedIffAgeSpares`); with nothing between the look and the removal the bucket's idle lifetime, less one
  tick, is enough (`LimiterBound.UndisturbedIffAgeSpares`). Nothing ties the age to either in the code.
- A refresh token is sent a second time when the earlier exchange failed (`TokenLadder.FailureReplays`); when the check just
  before found the row without tokens (`TokenLadder.RemovalReplays`) or could not read it
  (`TokenLadder.CheckFailureReplays`); when the request had taken over an access token and could not read its refresh token
  (`TokenLadder.AdoptionFailureReplays`); when the pair it was exchanged for could not be stored
  (`TokenLadder.StoreFailureReplays`); and in no other case (`TokenLadder.NoReplay`).
- A cleanup of a name that is held lets a second holder in (`Locking.CarelessCleanup`); a cleanup of names nobody holds
  does not (`Locking.OneHolder`).
- A validated column name may be a word the database reserves (`not`, `user`), and an IN list may be empty. A rendering
  reads back exactly when neither is the case, every column is named and no And or Or is empty
  (`SqlMeaning.RenderingKeepsMeaning`, `SqlMeaning.Unreadable`).
- A condition that renders nothing adds no WHERE, so the statement takes every row. That is what an empty And means; an
  empty Or is true of no row (`PgStatements.StatementTakes`, `PgStatements.EmptyOrTakesAll`).
- With several Deliver calls at once a subscription receives each topic's messages in order; messages of two topics change
  places only if their deliveries overlapped (`SubscriptionOrder.OnlyOverlappingSwap`), and then they may
  (`SubscriptionOrder.SwapExample`). One deliverer, as the Redis broker has, keeps the whole order.
- A factory may seal the graph. A service it then builds without declarations of its own is still attached, and a MayUse
  label that names it stays without its edge (`ServiceGraph.AttachedSettled`, `ServiceGraph.SealedByFactory`).
- The event-stream reader starts a connection with the stored last event ID in its buffer; the standard starts with none.
  The two show the same events and last event ID exactly when none was stored, or the connection sends its own ID before
  any event and before its last blank line (`EventStream.EventsAreStandard`, `EventStream.StoredIdKept`).
- The reader passes over retry times above what its 64-bit duration holds; the standard has no such limit
  (`EventStream.ReaderIsStandard`).
- The comment on a mark's lifetime reckons with one tick and the disagreement of the clocks
  (`gw/jobsched/kvdbledger.go:12-19`). The time a claim takes from its tick to the store counts as well
  (`JobClaims.AtMostOnceIffSkewWithin`).
- The comment on the KVDB limiter's creation says a stored value that cannot be read is replaced by the set-if-absent write
  (`gw/throttle/limiterkvdbbuckets.go:204-206`). The store leaves an existing key untouched, so it is not; such values are
  outside the model.

## Model

| member | source | states |
|---|---|---|
| LocalSubscriptions.DistinctTopics | gw/pubsubs/localsubscriptionmanager.go:259-276 | refused exactly for no topic or an empty one; otherwise each named topic once, in first-seen order |
| LocalSubscriptions.StepKeeps | gw/pubsubs/localsubscriptionmanager.go:57-255 | every step of Subscribe, Deliver, EndAll, end and take keeps the manager's invariant: who is in which shard, lock and set, and how far each end has come |
| LocalSubscriptions.RunKeeps | gw/pubsubs/localsubscriptionmanager.go:57-255 | the invariant holds in every state of every run |
| LocalSubscriptions.OverLeavesNothing | gw/pubsubs/localsubscriptionmanager.go:219-255 | a subscription whose end and Subscribe are both over is in no shard and not in the set, its queue is empty, its watches are released and its reason is stored |
| LocalSubscriptions.EndedForGood | gw/pubsubs/localsubscriptionmanager.go:83-106 | and so it stays in every later state of the run, with the same end reason |
| LocalSubscriptions.BegunAsCalled | gw/pubsubs/localsubscriptionmanager.go:219-222 | the end that begins stores the reason it was called with, and nothing else begins one |
| LocalSubscriptions.StepLeads | gw/pubsubs/localsubscriptionmanager.go:105-159 | a call for an end, a queue found full and a stored reason come only of what they name |
| LocalSubscriptions.ReasonIsTrue | gw/pubsubs/localsubscriptionmanager.go:219-222 | in every run a stored end reason, and every call for an end, names what happened before: the context's cancellation, EndAll, a full queue, or the caller |
| LocalSubscriptions.StepTells | gw/pubsubs/localsubscriptionmanager.go:147-159 | after EndAll every step keeps each subscription's end begun or called for |
| LocalSubscriptions.EndAllEnds | gw/pubsubs/localsubscriptionmanager.go:147-159 | in every run, once EndAll was called every subscription's end has begun or can be, and none is added |
| SubscriptionCounts.StepKeepsCounts | gw/pubsubs/localsubscriptionmanager.go:186-214 | every step keeps the owner's view and the true counts in step |
| SubscriptionCounts.CountsFollow | gw/pubsubs/localsubscriptionmanager.go:202-214 | in every state of every run the folded counts overlaid with untaken updates are the true counts, and no update waits without a notice or a take still to reach its shard |
| SubscriptionStreams.StepKeepsStreams | gw/pubsubs/localsubscriptionmanager.go:110-131 | every step keeps what each subscription has received equal to what was delivered to it |
| SubscriptionStreams.ReceivedInOrder | gw/pubsubs/localsubscriptionmanager.go:110-131 | in every state of every run, taken messages followed by the queue are, topic by topic, exactly those delivered since joining, in order and once, unless the subscription is ending or was found full |
| SubscriptionOrder.StepKeepsWhole | gw/pubsubs/localsubscriptionmanager.go:110-131 | with one Deliver at a time every step keeps what a subscription has received equal to the log of all its topics together, up to the delivery on its way |
| SubscriptionOrder.WholeStreamInOrder | gw/pubsubs/localsubscriptionmanager.go:110-131 | so in every state of every run whose deliveries do not overlap |
| SubscriptionOrder.StepKeepsOrder | gw/pubsubs/localsubscriptionmanager.go:110-131 | with any overlaps, every step keeps each received message's place in the log and out-of-order pairs among overlapping deliveries |
| SubscriptionOrder.OnlyOverlappingSwap | gw/pubsubs/localsubscriptionmanager.go:110-131 | in every run, of two received messages the first is the earlier in the log or the other's delivery was still running when its own began |
| SubscriptionOrder.EitherOrder | gw/pubsubs/localsubscriptionmanager.go:117-127 | two deliveries that have both seen a subscription alive put their messages in either order |
| SubscriptionOrder.SwapExample | gw/pubsubs/localsubscriptionmanager.go:110-131 | a run in which the second delivery's message is received first |
| BrokerLoop.AppliedAt | pubsubs/redis/brokerwithlocalsubscriptions.go:259-270 | visiting distinct topics in any order decides each from the state before the visit |
| BrokerLoop.Loop.Apply | pubsubs/redis/brokerwithlocalsubscriptions.go:259-281 | the loop sends exactly one SUBSCRIBE per missing topic and one UNSUBSCRIBE per surplus one, and updates the topic states to match |
| BrokerLoop.Loop.FoldUpdates | pubsubs/redis/brokerwithlocalsubscriptions.go:284-290 | the counts become the latest ones, topics at zero left out |
| BrokerLoop.Loop.TakeCounts | pubsubs/redis/brokerwithlocalsubscriptions.go:282-292 | the taken updates are folded and what they call for is sent |
| BrokerLoop.Loop.AnswerWaiters | pubsubs/redis/brokerwithlocalsubscriptions.go:303-319 | answered are exactly the waits not ended whose topics are all confirmed; kept are exactly those neither ended nor confirmed, in order |
| BrokerLoop.Loop.OnConfirmation | pubsubs/redis/brokerwithlocalsubscriptions.go:343-362 | a confirmation makes a subscribing topic subscribed, and an unwanted one is unsubscribed at once; a second one makes a miss notice due, which is put at the first confirmation counting every topic on the connection |
| RedisBroker.VisitKeepsWire | pubsubs/redis/brokerwithlocalsubscriptions.go:259-270 | a visit keeps the agreement between a topic's state, the commands on their way and Redis's set |
| RedisBroker.StepKeepsWires | pubsubs/redis/brokerwithlocalsubscriptions.go:249-366 | every step keeps that agreement for every topic |
| RedisBroker.StepKeepsLoop | pubsubs/redis/brokerwithlocalsubscriptions.go:325-365 | every step keeps what the loop knows of its subscribers in line with its counts and topics |
| RedisBroker.BrokerRunKeeps | pubsubs/redis/brokerwithlocalsubscriptions.go:249-366 | the broker's invariant holds in every state of every run on one connection |
| RedisBroker.ConfirmedWhileAlive | pubsubs/redis/brokerwithlocalsubscriptions.go:207-236 | once Subscribe has returned and while the subscription lives, Redis has all its topics, no UNSUBSCRIBE is behind them, and what is published to them is sent to this process |
| RedisBroker.OneUnconfirmed | pubsubs/redis/brokerwithlocalsubscriptions.go:242-246 | a topic has one unconfirmed SUBSCRIBE exactly while it is subscribing, else none |
| BrokerAnswers.StepWaits | pubsubs/redis/brokerwithlocalsubscriptions.go:294-363 | every step keeps each wait in one place: answered, dropped as ended, waiting with an unconfirmed topic, or behind the take under way |
| BrokerAnswers.EndedAreDropped | pubsubs/redis/brokerwithlocalsubscriptions.go:306-311 | whoever the loop finds ended neither waits on nor is answered |
| BrokerAnswers.AnsweredOrWaiting | pubsubs/redis/brokerwithlocalsubscriptions.go:294-363 | so in every state of every run on one connection; nobody waits whose topics are all confirmed |
| BrokerAnswers.NotStuck | pubsubs/redis/brokerwithlocalsubscriptions.go:242-246 | while its subscription lives, a waiting wait has a topic whose SUBSCRIBE or confirmation is on its way |
| BrokerStreams.WholeStreamOnConnection | pubsubs/redis/brokerwithlocalsubscriptions.go:336-342 | in every run on one connection each subscription has received exactly what was delivered on all its topics together, in order, up to the delivery on its way |
| BrokerStreams.StepArrives | pubsubs/redis/brokerwithlocalsubscriptions.go:325-365 | one step keeps what is arriving for a set of topics and adds exactly what Redis publishes to them |
| BrokerStreams.EveryMessageArrives | pubsubs/redis/brokerwithlocalsubscriptions.go:203-206 | from the answer on, every message published to the topics reaches the subscription in order and once: received, then the delivery on its way, then what Redis has sent |
| Buckets.RefilledIs | gw/throttle/limiterkvdbbuckets.go:295-306 | the refill counts whole periods, caps at the burst, and leaves less than a period uncounted |
| Buckets.RefillOnTheWay | gw/throttle/bucket.go:17-28 | refilling on the way changes nothing: only the last clock reading counts |
| Buckets.PeriodsFill | gw/throttle/limiterkvdbbuckets.go:311-314 | the periods of an idle lifetime are the fewest that fill an empty bucket |
| Buckets.IdleIsFull | gw/throttle/limiterkvdbbuckets.go:308-314 | idle for its lifetime a bucket refills to exactly its burst; an empty one idle for less does not |
| Buckets.SameVerdicts | gw/throttle/limiterkvdbbuckets.go:183-239 | on every call sequence with nondecreasing times one KVDB limiter and the in-memory bucket give identical verdicts |
| Buckets.MisalignedAdmitsMore | gw/throttle/limiterinmembuckets.go:252-265 | out of step with its periods, a dropped bucket admits more than the kept one on some call sequence |
| Buckets.DropIffAligned | gw/throttle/limiterinmembuckets.go:249-265 | dropping an idle bucket never admits more than keeping it if and only if the next call is a whole number of periods after its last refill moment, and then the verdicts are the same |
| Buckets.DropExample | gw/throttle/limiterinmembuckets.go:249-265 | burst 1, a token every two ticks, dropped one tick out of step |
| Buckets.ParseOfFormat | gw/throttle/limiterkvdbbuckets.go:268-290 | what formatBucket writes parseBucket reads back |
| Buckets.FormatReads | gw/throttle/limiterkvdbbuckets.go:288-290 | the tokens before the bar, the refill moment after it |
| Buckets.EqualTexts | gw/throttle/limiterkvdbbuckets.go:223 | a compare-and-swap on the stored text is one on the bucket |
| Buckets.AdmitAnyValid | gw/throttle/bucket.go:17-40 | with checked parameters nothing panics and the in-memory bucket is the common one |
| Buckets.PanicsIff | gw/throttle/bucket.go:19-22 | a use divides by zero exactly when the period is zero and the clock is not behind the bucket |
| Buckets.Bucket.Refill | gw/throttle/bucket.go:17-28 | the refill for any parameters, a panic changing nothing |
| Buckets.Bucket.TryAdmit | gw/throttle/bucket.go:30-40 | for any parameters, one token less and an admission, a refusal with the refill kept, or a panic |
| Buckets.InMemLimiter.SetBucketGroup | gw/throttle/limiterinmembuckets.go:198-207 | any parameters are taken before Start, the group then without buckets; afterwards the call is refused |
| Buckets.InMemLimiter.LoadOrCreateBucket | gw/throttle/bucketgroup.go:61-70 | the bucket under the key, created full if missing, no other touched |
| Buckets.InMemLimiter.TryAdmit | gw/throttle/limiterinmembuckets.go:223-229 | an unknown group is blocked, a missing bucket is created full, and no other bucket changes |
| Buckets.InMemLimiter.Use | gw/throttle/bucket.go:30-40 | one use of one bucket changes no other |
| Buckets.InMemLimiter.Look | gw/throttle/limiterinmembuckets.go:255-259 | whether the bucket's last refill moment is older than the cleanup age |
| Buckets.InMemLimiter.Remove | gw/throttle/limiterinmembuckets.go:260 | whatever is under the key goes |
| Buckets.InMemLimiter.Cleanup | gw/throttle/limiterinmembuckets.go:252-265 | looking and removing with nobody between, exactly the buckets older than the cleanup age go; the others stay as they are |
| LimiterBound.CleanIsLookThenDrop | gw/throttle/limiterinmembuckets.go:255-261 | a cleanup nothing comes between is its look followed by its removal |
| LimiterBound.PlayKeeps | gw/throttle/limiterinmembuckets.go:223-265 | under any calls and cleanups in time order, with calls between look and removal if the age is long enough for them, admissions plus tokens stay within burst plus what has grown |
| LimiterBound.ShortAgeExceeds | gw/throttle/limiterinmembuckets.go:252-265 | below the idle lifetime less one tick, a burst, a cleanup and another burst exceed the bound |
| LimiterBound.DisturbedExceeds | gw/throttle/limiterinmembuckets.go:255-261 | below the time two bursts need to grow less one tick, calls between a look and its removal exceed the bound |
| LimiterBound.BoundedIffAgeSpares | gw/throttle/limiterinmembuckets.go:252-265 | admissions by time T never exceed burst + increment * floor((T - t0) / period) if and only if the age is at least ceil(2 * burst / increment) * period - 1 |
| LimiterBound.UndisturbedIffAgeSpares | gw/throttle/limiterinmembuckets.go:252-265 | the same over cleanups nothing comes between, if and only if the age is at least the idle lifetime less one tick |
| Buckets.RefusalMemory.RememberRefusal | gw/throttle/limiterkvdbbuckets.go:252-263 | the refusal is kept, and at 1024 entries the passed ones are dropped |
| Buckets.SweepChangesNothing | gw/throttle/limiterkvdbbuckets.go:255-261 | the sweep changes no later answer for any other bucket |
| SharedBuckets.StepKeeps | gw/throttle/limiterkvdbbuckets.go:183-239 | every step of every call, with errors whose effect is unknown, and every expiry keeps the stored bucket and its lifetime in line |
| SharedBuckets.StepStays | gw/throttle/limiterkvdbbuckets.go:190-226 | every step but the forgetting of a key whose lifetime was not set since the last swap keeps an empty bucket in the store until its refill moment |
| SharedBuckets.MemoryNeverLies | gw/throttle/limiterkvdbbuckets.go:190-221 | in every run without such a forgetting, while a remembered refusal stands the store holds the empty bucket and would refuse a call now |
| SharedBuckets.MemoryAtOlderReading | gw/throttle/limiterkvdbbuckets.go:183-221 | in every run whose re-creations read no earlier than the forgotten bucket was full, a call whose remembered refusal stands at its own, older reading is refused by the store too exactly when no later refill has landed there or what landed is spent |
| SharedBuckets.SoloCall | gw/throttle/limiterkvdbbuckets.go:183-239 | a call nobody races does what the limiter alone does |
| SharedBuckets.LostRaceRetries | gw/throttle/limiterkvdbbuckets.go:194-239 | in every run a lost race has the call ask again, until it has lost the third |
| SharedBuckets.StepBudget | gw/throttle/limiterkvdbbuckets.go:194-236 | every step, a punctual re-creation included, keeps admissions, those still due and tokens within burst plus what has grown |
| SharedBuckets.AdmissionsBounded | gw/throttle/limiterkvdbbuckets.go:183-239 | over every interleaving of any number of instances with punctual re-creations, admissions by time T are at most burst + increment * floor((T - t0) / period) |
| SharedBuckets.ReadAfterForgetting | gw/throttle/limiterkvdbbuckets.go:183-233 | a call that read its clock no earlier than the key was forgotten is punctual, if no swap's Expire was outstanding then |
| StaleReadings.BoundNeedsPunctual | gw/throttle/limiterkvdbbuckets.go:183-239 | for every bucket some run with old readings exceeds the bound, by re-creating it and replaying its refills |
| StaleReadings.StaleCreationExceeds | gw/throttle/limiterkvdbbuckets.go:207-214 | for every bucket whose increment is below twice its burst, one re-creation with readings one tick too old exceeds the bound |
| StaleReadings.MemoryOutlivesRefill | gw/throttle/limiterkvdbbuckets.go:190-192 | a reachable state in which the memory refuses a call that the store would admit |
| KeyLifetimes.StepSpares | gw/throttle/limiterkvdbbuckets.go:194-236 | with refills worth two bursts, every step with fresh re-creations keeps a refilled bucket's burst to spare |
| KeyLifetimes.GapExceeds | gw/throttle/limiterkvdbbuckets.go:223-233 | for every bucket whose increment is below twice its burst, a key forgotten between swaps and their Expire exceeds the bound with fresh readings |
| KeyLifetimes.TimelyIsEnoughIff | gw/throttle/limiterkvdbbuckets.go:223-233 | fresh readings at every re-creation keep the bound in every run if and only if the increment is at least twice the burst |
| KeyLifetimes.MemoryOutlivesKey | gw/throttle/limiterkvdbbuckets.go:223-226 | for every bucket, after swaps that land and answer an error the memory refuses while the store has forgotten the bucket |
| KeyLifetimes.KeyEndsEarly | gw/throttle/limiterkvdbbuckets.go:207-226 | burst 1, a token every two ticks: a refusal at 2 remembered until 4 while the key may go at 3 |
| Locking.ProofsDiffer | gw/locking/managerkvdbledger.go:61-63 | no two asks of a fleet share a proof |
| Locking.ProofReads | gw/locking/managerkvdbledger.go:61-63 | the boot id before the colon, the number after it |
| Locking.StepKeeps | gw/locking/managerkvdbledger.go:105-138 | every step keeps proofs unique and each reserved ask the one in its instance's ledger |
| Locking.StepKeepsGrants | gw/locking/kvdbledger.go:26-32 | every step but a careless cleanup keeps each holder's row standing under its proof |
| Locking.OneHolder | gw/locking/managerkvdbledger.go:65-138 | at most one ask of all instances holds a name, in every run whose cleanups leave held names alone, whatever store calls failed with unknown outcome |
| Locking.OneHolderInside | gw/locking/manager.go:47-62 | with any cleanup, exclusion inside one instance holds |
| Locking.ReleaseIsFenced | gw/locking/kvdbledger.go:30-32 | with any cleanup, a release never removes another ask's grant |
| Locking.FreeIsGranted | gw/locking/managerkvdbledger.go:105-120 | an ask that finds both ledgers free of its name gets it; either refuses what another holds |
| Locking.OverLeavesNothing | gw/locking/managerkvdbledger.go:65-138 | in every run an internal ledger holds only names of asks under way; with no failing store call the external one holds only rows of holders |
| Locking.CarelessCleanup | gw/locking/kvdbledger.go:40-51 | cleaning a held name up lets any other instance become a second holder |
| Locking.Manager.Acquire | gw/locking/managerkvdbledger.go:105-120 | taken exactly when neither ledger has the name; a refusal or failure leaves the internal ledger as it was |
| Locking.Manager.GiveBack | gw/locking/managerkvdbledger.go:129-138 | the fenced delete, then the internal ledger whatever the store answered |
| Locking.Manager.GiveBackAll | gw/locking/managerkvdbledger.go:82-86 | last taken, first given back, until both ledgers are what they were |
| Locking.Manager.TakeAll | gw/locking/managerkvdbledger.go:77-90 | the names in order up to the first refused, each under the next of this manager's proofs |
| Locking.Manager.AcquireDoReleaseAll | gw/locking/managerkvdbledger.go:77-97 | the function runs exactly when every name could be taken, and while it runs each stands in both ledgers under this manager's own proof; the internal ledger is restored, others' rows stand, names go back in reverse, and one refusal names the refused |
| TokenLadder.CheckKeeps | gw/web/fwupstream/tokenrow.go:183-193 | not refreshed meanwhile, a request's slots hold the row's own unspent pair |
| TokenLadder.AdoptKeeps | gw/web/fwupstream/tokenrow.go:161-167 | adopting another request's pair keeps the slots linked, inside and outside the hold |
| TokenLadder.StepKeeps | gw/web/fwupstream/tokenrow.go:133-248 | every step of the ladder keeps the invariant |
| TokenLadder.NoReplay | gw/web/fwupstream/tokenrow.go:133-248 | in every run, with reads and writes that fail, a refresh token is sent twice only if the earlier exchange failed or one of four recorded causes came before |
| TokenLadder.RenewsIs | gw/web/fwupstream/tokenrow.go:239-247 | an exchange stored, and a check that finds the row refreshed, give the request the row's access token, another than it had; after an exchange the refresh token is that pair's |
| TokenLadder.AdoptsPair | gw/web/fwupstream/tokenrow.go:161-166 | an adoption that reads the row takes the refresh token there |
| TokenLadder.SendsRenewed | gw/web/fwupstream/tokenrow.go:133-248 | in every run, from a rejection on, a request that refreshed or adopted sends another token than the rejected, one that was on the row after the rejection; one that did neither holds what it held |
| TokenLadder.FailureReplays | gw/web/fwupstream/tokenrow.go:235-238 | after a failed exchange the same token is sent again, from every state where the row was not refreshed |
| TokenLadder.RemovalReplays | gw/web/fwupstream/tokenrow.go:187-192 | from every reachable state with the hold free and the row without tokens, an idle request with a spent cached token sends it again |
| TokenLadder.CheckFailureReplays | gw/web/fwupstream/tokenrow.go:187-192 | from every reachable state with the hold free, so it does when the check cannot read the row |
| TokenLadder.AdoptionFailureReplays | gw/web/fwupstream/tokenrow.go:161-167 | and so it does holding the row's access token after an adoption that could not read the refresh token |
| TokenLadder.StoreFailureReplays | gw/web/fwupstream/tokenrow.go:239-241 | from every reachable state about to store, a store that fails has the next request send the spent token again |
| TokenLadder.StoreFailureHappens | gw/web/fwupstream/tokenrow.go:235-241 | such a state is reached |
| TokenLadder.AdoptionFailureHappens | gw/web/fwupstream/tokenrow.go:161-167 | so is one with a failed adoption |
| TokenLadder.RemovalHappens | gw/web/fwupstream/io.go:139-147 | such a state is reached by removing the tokens of a live row |
| ServiceGraph.IndexOfEdge | gw/framework/core_graph.go:164-171 | where the edge to a node sits, or that there is none |
| ServiceGraph.IndexOfEdgeByName | gw/framework/core_graph.go:175-182 | the same by name |
| ServiceGraph.ResolveDeps | gw/framework/core_graph.go:90-111 | accepted exactly when every declaration is; one edge per registered name, as strict as its strictest declaration |
| ServiceGraph.Graph.Resolve | gw/framework/core_graph.go:76-112 | accepts exactly open, unsealed, new and resolvable registrations, names the first fault otherwise, and records nothing |
| ServiceGraph.AttachedMirrored | gw/framework/core_graph.go:117-120 | the mirror of each new edge keeps every dependency mirrored exactly once |
| ServiceGraph.Graph.Attach | gw/framework/core_graph.go:117-126 | the mirrors, the name and the slot; the graph stays coherent |
| ServiceGraph.Graph.Add | gw/framework/core_graph.go:59-70 | a refused registration changes nothing |
| ServiceGraph.Graph.RegisterServiceFunc | gw/framework/core.go:133-162 | nothing registers while the factory runs; a failed or misnamed build, or a service with unacceptable dependencies, leaves the nodes unchanged; if the factory seals, a service is attached exactly when it declares nothing of its own |
| ServiceGraph.LateUse | gw/framework/core_graph.go:145-156 | whether some optional dependency of a node registered after it |
| ServiceGraph.Graph.Seal | gw/framework/core_graph.go:143-159 | succeeds exactly when every declared name that is registered has its edge |
| ServiceGraph.SealedEdge | gw/framework/core_graph.go:105-110 | after a successful seal that edge is the only one, mirrored, and optional exactly when all its declarations are |
| ServiceGraph.AttachedSettled | gw/framework/core_graph.go:143-159 | a node attached after the seal leaves every label settled exactly when no earlier node declares its name |
| ServiceGraph.SealedByFactory | gw/framework/core.go:133-162 | a factory that seals: its service is attached and a MayUse label naming it has no edge |
| ServiceGraph.EdgeDeeper | gw/framework/core_graph.go:184-201 | a dependency lies strictly deeper than its dependent |
| ServiceGraph.NoGaps | gw/framework/core_graph.go:202-223 | below an occupied level every level is occupied |
| ServiceGraph.FillLevels | gw/framework/core_graph.go:206-217 | one backward pass computes the longest chain of dependents above every node |
| ServiceGraph.Levels | gw/framework/core_graph.go:202-223 | each service once, every dependency strictly deeper than all its dependents, no level empty |
| Lifecycle.StartNext | gw/framework/core.go:202-205 | the next service of the start walk finds everything it depends on started |
| Lifecycle.StartServices | gw/framework/core.go:186-231 | seals first and starts nothing unless every label is settled; then as the walk |
| Lifecycle.StartWalk | gw/framework/core.go:198-230 | every start finds its dependencies started; success starts and admits everything; a failure tears down all that started, dependents first, and leaves nobody admitted |
| Lifecycle.RollbackStarted | gw/framework/core.go:264-278 | reverse start order is dependents before dependencies, and exactly the services torn down lose their admission |
| Lifecycle.WalkKeeps | gw/framework/core.go:356-427 | every step of the terminate walk leaves passed levels done and later levels untouched |
| Lifecycle.DependentsDone | gw/framework/core.go:356-427 | however a level's services interleave, no Terminate begins before every dependent reported or was abandoned |
| Lifecycle.AllDone | gw/framework/core.go:356-379 | a finished walk has terminated or abandoned, and un-admitted, every service |
| Lifecycle.StatusIsTold | gw/framework/core.go:400-427 | a service's status is what was last done to it, reported told apart from abandoned |
| Lifecycle.FirstErrorIs | gw/framework/core.go:356-379 | in every run the error recorded is that of the first service, level by level, that was abandoned or reported one; none if each reported without |
| SqlConditions.WriteMarks | gw/sqldbs/inpred.go:15-20 | one placeholder per value, comma-separated |
| SqlConditions.BindReprAll | gw/sqldbs/and.go:10-30 | nothing, the one condition, or all of them joined in parentheses, with their values in order |
| SqlConditions.BindRepr | gw/sqldbs/not.go:8-11 | the text and the values of any condition tree |
| SqlRoundTrip.LexCond | gw/sqldbs/or.go:10-30 | a rendering has exactly the tokens of its tree, its placeholders numbered by its values |
| SqlMeaning.ParseCond | gw/sqldbs/and.go:17-29 | whatever words are reserved, those tokens parse back to the tree's expression exactly when it is readable, and otherwise not at all |
| SqlMeaning.SameMeaning | gw/sqldbs/binpred.go:10-12 | with each placeholder bound to its value the expression evaluates as the tree, in three-valued logic |
| SqlMeaning.ThreeValued | gw/sqldbs/and.go:10-30 | AND, OR and NOT are minimum, maximum and reversal of false < unknown < true |
| SqlMeaning.RenderingKeepsMeaning | gw/sqldbs/and.go:10-30 | for every condition that can be constructed and every set of reserved words, the rendering reads back exactly when all columns are named and unreserved and no list or group is empty, and then means the same on every row |
| SqlMeaning.Unreadable | gw/sqldbs/inpred.go:11-23 | a column named by a reserved word, or an empty list, gives no expression |
| SqlStatements.TranslateAll | gw/sqldbs/whereclause.go:25-34 | every `?` becomes the next number |
| SqlStatements.Build | gw/sqldbs/whereclause.go:17-36 | no condition, or one that renders nothing, adds nothing; otherwise the numbered clause and its values |
| SqlStatements.TextPiece | gw/sqldbs/inpred.go:11-23 | a rendering has one placeholder per value and nothing else that looks like one |
| PgStatements.TranslateGives | gw/sqldbs/whereclause.go:25-34 | a translated clause holds exactly the next numbers |
| PgStatements.GivesIdentifier | sqldbs/pgsql/client.go:168-174 | a quoted name holds no placeholder, whatever the name |
| PgStatements.QuotedNameReadsBack | sqldbs/pgsql/client.go:159-174 | whatever a name contains, quoted it is read back as exactly its dotted parts, with nothing left outside the quotes |
| PgStatements.Choose | gw/sqldbs/columns.go:61-79 | exactly columns of the table, none twice |
| PgStatements.Assign | gw/sqldbs/wherepk.go:12-19 | the quoted columns, each with the next number |
| PgStatements.AssignedReadsBack | gw/sqldbs/wherepk.go:12-19 | a list of assignments reads back as its columns, each beside its number, in order |
| PgStatements.UpdateRow | sqldbs/pgsql/db.go:182-206 | refused exactly for the four misuses, each with its error; read back, the statement gives each column its own value and compares each key column with its own; the placeholders are 1..len(args) in text order |
| PgStatements.UpdateRows | sqldbs/pgsql/db.go:208-229 | read back, the statement gives each column its own value before the condition's clause; the placeholders are 1..len(args) in text order |
| PgStatements.SelectRows | sqldbs/pgsql/db.go:105-118 | read back, the statement selects the chosen columns in order, or all, from the table with the condition's clause; the placeholders are 1..len(args) in text order |
| PgStatements.DeleteRows | sqldbs/pgsql/db.go:241-250 | read back, the statement deletes from the table with the condition's clause; the placeholders are 1..len(args) in text order |
| PgStatements.ClauseKeepsMeaning | sqldbs/pgsql/db.go:222-227 | a clause behind earlier values, read with `$n` as the statement's n-th value, is an expression exactly when its condition is readable, and means what it means |
| PgStatements.StatementTakes | gw/sqldbs/whereclause.go:17-36 | a statement takes exactly the rows its condition is true of if and only if the condition is readable or renders nothing and means true |
| PgStatements.EmptyOrTakesAll | gw/sqldbs/whereclause.go:22-24 | an empty Or is true of no row, and a statement with it takes every row |
| EventStream.LineEnds | cli/signedreq/eventstream.go:64-74 | a line ends at CRLF, LF or CR, the line feed of a CRLF belonging to it |
| EventStream.BOMInLine | cli/signedreq/eventstream.go:75-78 | stripping the mark from the first line is stripping it from the stream |
| EventStream.FieldReads | cli/signedreq/eventstream.go:84-88 | the field comes before the first colon, the value after it and one space |
| EventStream.InterpretSays | cli/signedreq/eventstream.go:36-62 | between two blank lines: one event with the data lines' values joined by line feeds in order, the last event line's name or "message", and the last accepted ID up to there; nothing without a data line |
| EventStream.EventsAreStandard | cli/signedreq/eventstream.go:25-105 | events and last event ID are those of section 9.2.6 of the WHATWG HTML standard if and only if no ID was stored or the connection settles its own in time |
| EventStream.StoredIdKept | cli/signedreq/eventstream.go:25-40 | a stored ID and an event without one: the reader gives it the stored ID, the standard none |
| EventStream.ReaderIsStandard | cli/signedreq/eventstream.go:97-100 | and the retry time is the standard's if and only if the last retry line is within 64-bit nanoseconds |
| EventStream.Stream.TakeLine | cli/signedreq/eventstream.go:79-103 | a line is a dispatch, a comment or a field, a retry time too long to hold passed over |
| EventStream.Stream.ReadBytes | cli/signedreq/eventstream.go:25-105 | byte by byte the same as line by line |
| EventStream.Stream.Read | cli/signedreq/eventstream.go:25-105 | for every byte sequence, the events, the last event ID and the retry time that its lines say, block by block; and the standard's events and ID exactly under the condition above |
| Keyring.Render | gw/security/ciphercontext.go:26-33 | each part behind its length, in field order |
| Keyring.ContextReadsBack | gw/security/ciphercontext.go:26-33 | read back part by part: the app, the location, the field, and nothing else |
| Keyring.RenderInjective | gw/security/ciphercontext.go:21-25 | distinct contexts render distinctly |
| Keyring.LabelsDiffer | gw/security/keyring.go:73-75 | two pairs of app and purpose never share a derivation label |
| Keyring.LabelReads | gw/security/keyring.go:73-75 | the app before the first colon, the purpose after it |
| Keyring.NewKeyringCipher | gw/security/keyring.go:66-129 | built exactly from a good conf, every entry's key derived for this app and purpose; the error names what is wrong |
| Keyring.OpensAfterRotations | gw/security/keyring.go:133-167 | whatever rotations came between, a value opens to its plaintext under its own context and under no other while its entry is unchanged; with the entry gone the failure names the key |
| Keyring.OpensOnlyAtHome | gw/security/keyring.go:40-44 | with a derivation that separates, a value opens for a reader of any app and purpose, conf and context exactly when app, purpose and context are its own and its key id names its master key |
| Base64.DecodeOfEncode | auth/passwd/argon2id.go:132-136 | unpadded base64 decodes to the bytes encoded |
| Base64.CharIsAlphabet | auth/passwd/argon2id.go:132-136 | the digits' characters are those of Table 1 of RFC 4648 |
| Base64.GroupBits | auth/passwd/argon2id.go:132-136 | each three bytes are four digits of the same number, a last one or two filled up with zero bits |
| Argon2id.NewArgon2id | auth/passwd/argon2id.go:50-71 | accepted exactly at or above the floor and within range; then memory is at least eight times the lanes |
| Argon2id.ParseArgon2id | auth/passwd/argon2id.go:143-187 | the parts of a strict, runnable encoding, or nothing |
| Argon2id.WrittenReads | auth/passwd/argon2id.go:132-136 | what is written, part by part: the name, the version, memory, passes, lanes, salt and hash |
| Argon2id.ParsedOfWritten | auth/passwd/argon2id.go:132-187 | a written encoding parses back to its parts exactly when it can be run |
| Argon2id.HashesReadBack | auth/passwd/argon2id.go:113-121 | for every accepted conf the string parses back, and needs a rehash exactly when the hasher's conf differs |
| JobClaims.FiringMinute | gw/jobsched/service.go:376-381 | the first whole minute not before ExecTime |
| JobClaims.Scheduler.StoreOneTimeJob | gw/jobsched/service.go:367-389 | refused within the margin, else filed under its minute after what is there |
| JobClaims.Scheduler.RunOneTimeJobsPerApp | gw/jobsched/service.go:559-586 | the minute is taken once; run are exactly its jobs whose claim wins, each once; a claim that errs runs nothing and may leave its mark |
| JobClaims.ClaimKeysDiffer | gw/jobsched/kvdbledger.go:61-63 | claim keys are injective for every job id |
| JobClaims.ClaimKeyReads | gw/jobsched/kvdbledger.go:61-63 | the prefix, the job, a colon and the minute in digits |
| JobClaims.StepKeeps | gw/jobsched/service.go:560-575 | every minute read, claim and expiry keeps each minute's winner unique |
| JobClaims.SkewRunsTwice | gw/jobsched/kvdbledger.go:12-19 | clocks and lag further apart than the mark's lifetime less a minute run a job twice |
| JobClaims.AtMostOnceIffSkewWithin | gw/jobsched/kvdbledger.go:12-19 | each (job, minute) runs at most once in every run if and only if no two clocks differ by more than the mark's lifetime less a minute and the lag of a claim |

## Left out

- Ordered collections, GroupBy and LinkHasMany (`gw/coll`, `gw/collgrp`): index bookkeeping that would only add easy members.
- The broker after a connection restore: what is confirmed again, and when, is the Redis client's own behaviour. The broker is proved for one unbroken FIFO connection; its loop's miss notice is in `BrokerLoop.Loop.OnConfirmation` alone.
- SharedBuckets: instances and store share one clock; the checks of the KVDB limiter's SetBucketGroup are the precondition `Valid`.
- Stored bucket values that do not parse: every stored value is one formatBucket wrote.
- LimiterBound.BoundedIffAgeSpares: a call reads its clock, loads its bucket and uses it at one moment, and calls come in time order; a call held up between its reading and its use may take from a removed bucket or create one with an old reading, which needs a longer age.
- Locking.Manager.AcquireDoReleaseAll: the external ledger stands still but for this manager's own calls; other instances come in with `Locking.OneHolder`. The caller's context and what its function does are not modelled.
- The batches of CleanupNames and the scan of Cleanup: cleanup removes a set of names in one step.
- TokenLadder: the number of hold attempts and the context's end are one choice at each refusal; a hold that is never given back only stops requests; access tokens by machine assertion (`gw/web/fwupstream/tokenrow_exchange.go`) are not modelled; presenting a token and its answer are one step.
- Service Start, Stop and Terminate bodies, panics and operator start and stop: a service is a node that starts or fails, reports or is abandoned.
- SqlReader: which words a dialect reserves is a parameter; that PostgreSQL folds unquoted names to lower case is left to what a row calls its columns.
- Identifiers quoted for other databases, INSERT and COPY statements, and SelectRow and DeleteRow, whose key clause is UpdateRow's.
- JSON output and the replacement of invalid UTF-8 in the event-stream reader; read errors end the stream like its end.
- Keyring: the cipher is ideal, a sealed value opening with its own key and context only; nonces are given; master keys' padded base64 is abstract.
- Argon2id hashing and the constant-time comparison.
- JobClaims: clocks read times since the epoch, and time zones are offset by whole minutes; cron matching, per-instance jobs and job deletion are not modelled.
- Overflow of fixed-width integers in times, token counts, sequence numbers and placeholder numbers.
- HTTP handlers, configuration, storage and everything else of the framework.
