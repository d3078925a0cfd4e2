# Verification model of antiloop

antiloop relays WIS2 notification messages from one MQTT broker to others. Every centre runs
several instances of it. One of them is primary and publishes; the others buffer what they
receive and take over when the primary stops. All instances of all centres share one Redis,
whose `SET NX EX` decides for every message id who publishes it.

What makes this safe lies between the functions: a dedup slot is never taken by someone who does
not publish, the age limit of the buffer must not exceed the dedup TTL, the lowest fresh uuid
wins, a report is never reported on. These Dafny files model the code behind those statements and
prove them, and where a statement needs an assumption they also give a run that breaks without it.
`dafny verify dfyconfig.toml` checks everything.

## How the model is laid out

Code that works by changing state is a class whose methods are proved against a function of the
old state. Where calls interleave there is a second module, named `...Steps`, that splits the
code at its locks, channels and Redis round trips into steps, and proves what holds in every state
of every run. A run is a sequence of states in which each follows from the one before by an
enabled step.

| Files | Modelled | Main results |
|---|---|---|
| `Fleet` | any number of instances, their gates, goroutines and Redis | `AtMostOncePerTtl`, `SlotsBelongToPublishers`, `HandOffLosesNothing`, `LateDrainIsCaught`, `DrainingIsSafeExactly` |
| `Gates`, `GateSteps` | the backlog with age eviction | every method refines a queue that never evicts; `EveryMessageInOnePlace`, `CalmRunForwardsInOrder` |
| `Dedup`, `DedupSteps` | batched dedup: collector, flushes, semaphore | linearizability: `AnswersAreDirect`, `OrderRespectsRealTime`; `CallersWinApart` |
| `Election`, `ElectionSteps` | the lowest-fresh-uuid election | `DualPrimaryIsBounded`, `PruneSparesTheLiving` |
| `RoleSteps`, `Wiring` | roles and connections into the gate | `CalmGateIsRight`, `HeldValueCanBeLast`, `Wiring.Tick` |
| `Failover`, `FailoverSteps` | the two-timer debounce of the backup broker | the machine agrees with `ActiveAt`, a statement about its event history; `SafeRunFollowsHistory`, `UnsafeExactly` |
| `Relay`, `Json`, `Network` | one message through `process`; brokers relaying to each other | `EveryRunComesToRest`, `RestsExactly`, `StripKeepsIdExactly` |
| `FanOut` | the publisher and its own gate | `LosesNothing` |
| `Registry`, `RegistrySteps`, `TopicHashes` | the shared lists of registered data and topics | `AgreesExactly`, `IndexesAreTheRegistry`, `WholeSetsOnly` |
| `Schema`, `EnvFile`, `TopicFilter`, `Strings` | schema cleanup, env files, topic filters | `CleanIsExact`, `QuotedRoundTrip`, `PlusWidens` |

## Decisions

- One integer clock is shared by all instances and Redis. It never runs backwards. A critical
  section reads it once where the code may read it twice.
- A Redis key with an expiry exists while `now < expiry`. At the tie it is gone.
- A failed Redis call either did not reach the server or ran and lost its reply. HSET and EXPIRE
  of an announcement share one outcome.
- A command either takes effect before its client learns that the call failed, or never. One that
  reaches the server only after its client gave up on it or stopped is not modelled. A batched
  dedup request whose caller gave up is another matter: the collector still runs it, in `Fleet` as
  the step `LateDedup`.
- Commands of one dedup pipeline run in any order with other clients' commands in between.
- A caller whose context is cancelled gives up waiting (`GiveUp`); its request goes on.
- In `Fleet` the roles are not constrained. What is proved there holds however many instances
  believe they are primary. `ElectionSteps` bounds how long that can last.
- In `Failover` a timer fires the moment it is due, before a report at the same time.
  `FailoverSteps` drops this.
- JSON text is a tree whose objects keep the order and the repeats of their members. Go values are
  a second type; numbers are kept as text.
- `process` takes the verdicts of its checks as inputs.

## Where code and documentation disagree, and other surprises

The model follows the code.

- `gate.Open` is described as draining the backlog before live messages pass. It switches first
  and forwards afterwards: `GateSteps.LiveMessageOvertakesBacklog`. Arrival order holds when every
  live message and every Open finds nothing on its way (`CalmRunForwardsInOrder`), and can be lost
  whenever something is (`OnItsWayCanBeOvertaken`).
- The gate's age limit is described as having to match the dedup TTL exactly, so that no drained
  copy slips past an expired key. A limit equal to the TTL leaves no room for a copy that arrives
  after the claim or is checked after its release: `Fleet.EarlyClaimIsOutlived`. The exact
  condition is `Fleet.DrainingIsSafeExactly`; for the shipped settings, `Wiring.SharedTtlLeavesNoSlack`.
- The setters of the pipeline apply the gate state after unlocking, so an older value can be
  applied last and stay: `RoleSteps.StaleOpen`. The gate is right whenever it is at rest if no setter
  locks while another is between its halves (`CalmGateIsRight`), and can be left wrong whenever one
  is (`HeldValueCanBeLast`).
- A failed election tick is described as failing closed. It keeps the role, primary included:
  `ElectionSteps.FailedReadsKeepBothPrimary`.
- A dedup error does not stop a message: `Fleet.LostReplyPublishesTwice`. Publishing twice within
  one TTL takes a missing answer to at least one of the two dedup calls (`Fleet.AtMostOncePerTtl`),
  and every missing one can lead to it (`Fleet.EveryLostReplyPublishesTwice`).
- Content stripping decodes the payload into a map and dedup into a struct, which treat repeated,
  differently spelled and null members differently. A payload can be published with another id
  than the one dedup claimed, with none, or with one where it had none:
  `Json.StripChangesAmbiguousId`, `StripLosesNulledId`, `StripGainsId`; exactly when,
  `StripKeepsIdExactly`. A message that loses its id can circulate for ever:
  `Network.LosingIdNeverRests`.
- The links-rel rule discards under "verify" as well: `Relay.StricterPublishesLess`.
- The timers of the backup failover are described as never concurrent. A callback that fired but
  waits for the mutex can orphan a newer timer, and the orphan hangs up the backup during an
  outage: `FailoverSteps.OrphanHangsUpBackup`. `SafeRunFollowsHistory` and `UnsafeExactly` say
  which reports are harmless and which are not.
- `Publish` answers "queued" when no broker is connected, described as neither delivered nor
  dropped. Before the disconnect callback has closed the gate the message is attempted at once
  instead, and lost: `FanOut.QueuedButLost`. Behind a full backlog it is dropped:
  `FanOut.QueuedButDropped`. It is held if and only if the gate is queueing and its backlog is not
  full (`FanOut.Publisher.Publish`).
- `writeIndex` is described as never showing a half-written set. With one writer it does not
  (`RegistrySteps.WholeSetsOnly`). Any two writers can leave the union of their sets
  (`TwoWritersMix`), and with more than one chunk half of one, equal lists included
  (`TwoWritersSplit`).
- A line without a topic gets a registry key without the trailing colon the check asks for:
  `RegistrySteps.EmptyTopicIsBelieved`, `ColonTopicIsBelieved`; exactly when, `AgreesExactly`.
- A topic list that becomes empty is undone by the next sync: `TopicHashes.EmptyListIsUndone`.
  After a refresh and a sync the cache is the fetched list if and only if the list has a hash or
  the index was empty before (`TopicHashes.TopicSet.RefreshAndSync`). The index of a centre that is gone from the registry is not emptied either:
  `RegistrySteps.WholeSetsOnly`.
- In an env file, a comment behind an empty value becomes the value, and a quoted value with a
  comment behind it keeps its quotes: `EnvFile.SurprisingValues`; exactly when a comment is
  removed, `CommentedValue`.

## Model

| member | source | states |
|---|---|---|
| `Fleet.AtMostOncePerTtl` | go/source/internal/relay/pipeline.go:475-499 | In every run of the fleet, with any number of open gates, of two copies of one id whose dedup calls are less than one TTL apart and that were both passed to Publish, at least one got no answer from Redis |
| `Fleet.EveryLostReplyPublishesTwice` | go/source/internal/relay/pipeline.go:476-488 | The converse: whatever the slot, a lost reply, or a caller that gave up, sends its copy on to Publish, so after a twin published less than one TTL ago every missing answer leads to two |
| `Fleet.ClaimsAreApart` | go/source/internal/dedup/dedup.go:210-244 | Two copies of one id that both won the slot did so at least one TTL apart |
| `Fleet.SlotsBelongToPublishers` | go/source/internal/relay/pipeline.go:475-499 | Every dedup key was set for exactly one copy, which has made exactly one Publish call for it or has Publish as its next step |
| `Fleet.BystandersClaimNothing` | go/source/internal/gate/gate.go:112-126 | A copy that is queued, dropped, evicted, discarded or answered "seen" holds no slot and was never published |
| `Fleet.HandOffLosesNothing` | go/source/internal/relay/pipeline.go:359-525 | Once all goroutines finished, every forwarded, undiscarded copy with an id was published by its own call, or its id was claimed less than one TTL before by a copy that was published |
| `Fleet.EscapeIsBounded` | go/source/internal/gate/gate.go:133-166 | A duplicate that escapes dedup was claimed the first time at most drain delay after the second copy was queued |
| `Fleet.LateDrainIsCaught` | go/source/internal/gate/gate.go:133-166 | A copy drained late whose id was claimed after it was queued, drain delay allowed for, is discarded as seen; the ties are spelled out |
| `Fleet.MaxAgeMustNotExceedTtl` | go/source/internal/relay/pipeline.go:248-264 | The bound on escapes holds over all runs if and only if the gate's age limit is positive and at most the dedup TTL |
| `Fleet.EscapeAtTheTie` | go/source/internal/gate/gate.go:133-145 | A run that escapes with a claim made at the instant of the enqueue, an entry whose age is exactly the limit, which is kept, and a key that expires exactly then |
| `Fleet.EarlyClaimIsOutlived` | go/source/internal/gate/gate.go:38-48 | With the age limit equal to the TTL, a claim that precedes the enqueue by any part of the TTL is outlived by a drained copy younger than the limit: a run for each such lag |
| `Fleet.DrainingIsSafeExactly` | go/source/internal/gate/gate.go:38-48 | With copies queued at most some lag after the claim and checked at most some delay after their release, no drained copy escapes in any run if and only if the age limit is positive and it, lag and delay together stay below the TTL |
| `Fleet.StopAfterClaimLosesMessage` | go/source/internal/relay/pipeline.go:475-499 | A stop between the claim and Publish loses the message: the assumption of the hand-off result is needed |
| `Fleet.LostReplyPublishesTwice` | go/source/internal/relay/pipeline.go:476-488 | A dedup error publishes anyway, so two copies of one id are published at the same time |
| `Fleet.ArrivalIsGateStep` | go/source/internal/gate/gate.go:112-126 | In every reachable state an arrival takes the same step at a gate of the fleet as at the queue the gate class refines |
| `Fleet.OpeningIsGateStep` | go/source/internal/gate/gate.go:152-166 | Opening a gate of the fleet sends on exactly the copies that queue releases |
| `Fleet.QueueingIsGateStep` | go/source/internal/gate/gate.go:170-174 | Going back to buffering keeps the backlog of that gate and sends nothing |
| `Fleet.StopIsNewGate` | go/source/internal/gate/gate.go:99-101 | An instance that stops comes back with a new gate; what it had queued or not finished is gone, and no one else notices |
| `Fleet.DedupIsDirect` | go/source/internal/dedup/dedup.go:236-244 | The dedup step of the fleet is one direct SET NX call: same keys, same answer, same failure |
| `Fleet.LateIsDirect` | go/source/internal/dedup/dedup.go:224-313 | So is the command of a batched request that runs after its caller gave up: it may take a slot, for a copy that went on to Publish, and nobody hears its answer |
| `Gates.Gate.constructor` | go/source/internal/gate/gate.go:99-101 | A new gate is queueing, empty and has forwarded nothing |
| `Gates.Gate.EvictExpired` | go/source/internal/gate/gate.go:133-145 | Dropping the expired head leaves exactly the unexpired entries, wherever they stood |
| `Gates.Gate.Handle` | go/source/internal/gate/gate.go:112-126 | Takes the step of the queue that never evicts: out when open, else behind the backlog unless its unexpired part is full |
| `Gates.Gate.Open` | go/source/internal/gate/gate.go:152-166 | Forwards exactly the unexpired backlog in order and passes through from then on |
| `Gates.Gate.Queue` | go/source/internal/gate/gate.go:170-174 | Goes back to buffering and drains nothing |
| `Gates.Gate.Len` | go/source/internal/gate/gate.go:180-185 | The number of unexpired entries, which is within the bound |
| `Gates.HeadEvictionIsFullFilter` | go/source/internal/gate/gate.go:128-145 | For a backlog in arrival order the head scan removes exactly all expired entries |
| `Gates.HeadEvictionNeedsSorted` | go/source/internal/gate/gate.go:128-145 | With a clock that ran backwards it does not |
| `Gates.FilterEarlyFilterLate` | go/source/internal/gate/gate.go:119-154 | Evicting early and again later is evicting once |
| `Gates.RunForwardsInOrder` | go/source/internal/gate/gate.go:112-166 | Over every run of calls the gate forwards a subsequence of what it was handed, in order |
| `Gates.RunKeepsBound` | go/source/internal/gate/gate.go:120-123 | The unexpired backlog never exceeds its bound |
| `GateSteps.EveryMessageInOnePlace` | go/source/internal/gate/gate.go:112-174 | With forwarding split from locking, every message is forwarded, still draining, queued, dropped or evicted, in exactly one of these once |
| `GateSteps.HandleIsArrive` | go/source/internal/gate/gate.go:112-126 | In every reachable state the locked half of Handle takes the step of the queue the gate class refines: a queueing gate forwards nothing, an open one queues nothing |
| `GateSteps.OpenIsRelease` | go/source/internal/gate/gate.go:152-166 | And that of Open sets aside exactly what that queue releases, in order |
| `GateSteps.QueueIsHold` | go/source/internal/gate/gate.go:170-174 | And Queue closes the gate and touches nothing else |
| `GateSteps.LenEvicts` | go/source/internal/gate/gate.go:180-185 | Asking for the length drops what has expired and touches nothing else |
| `GateSteps.DrainsForwardInArrivalOrder` | go/source/internal/gate/gate.go:152-166 | Every drain forwards its snapshot in arrival order whatever interleaves with it |
| `GateSteps.LiveMessageOvertakesBacklog` | go/source/internal/gate/gate.go:159-165 | A later live message can be forwarded before the backlog |
| `GateSteps.CalmRunForwardsInOrder` | go/source/internal/gate/gate.go:112-166 | If every live message and every Open finds nothing on its way, everything is forwarded in arrival order, across drains and live messages |
| `GateSteps.OnItsWayCanBeOvertaken` | go/source/internal/gate/gate.go:159-165 | From every reachable state with something on its way the run can go on to forward a later message before an earlier one |
| `Dedup.OneWinnerPerBatch` | go/source/internal/dedup/dedup.go:313-333 | Of two requests for one id in one batch the later is never told "not seen" |
| `Dedup.Redis.SetNX` | go/source/internal/dedup/dedup.go:236-244 | One SET NX with its answer, an existing key and its expiry left alone, for each way the call can fail |
| `Dedup.Redis.Exec` | go/source/internal/dedup/dedup.go:313-325 | A pipeline answers like direct calls one after the other |
| `Dedup.Batcher.NewBatched` | go/source/internal/dedup/dedup.go:145-199 | Degenerate settings become a batch size of one, the shortest wait and one flush at a time, and a TTL of zero five minutes |
| `Dedup.Batcher.ReceiveRequest` | go/source/internal/dedup/dedup.go:261-279 | A request joins the batch; a full batch is flushed and its timer gone; in an open one a timer that runs is left alone, and the first request starts one for batchWait |
| `Dedup.Batcher.TimerFires` | go/source/internal/dedup/dedup.go:280-286 | An armed timer always finds a batch to flush |
| `Dedup.Batcher.Flush` | go/source/internal/dedup/dedup.go:313-333 | Every request of the batch gets the answer a direct call at its place would have got |
| `DedupSteps.AnswersAreDirect` | go/source/internal/dedup/dedup.go:210-333 | Every answer a caller gets is that of a direct call at one place of a sequential history, inside the span of the call |
| `DedupSteps.OneCommandOneAnswer` | go/source/internal/dedup/dedup.go:313-333 | No request is executed or answered twice |
| `DedupSteps.OrderRespectsRealTime` | go/source/internal/dedup/dedup.go:210-230 | A call that has returned in some state of the run, in which another has not begun, comes before it in that history |
| `DedupSteps.NoRequestIsLost` | go/source/internal/dedup/dedup.go:210-303 | When nothing is on its way every caller that handed a request over has an answer |
| `DedupSteps.UnansweredMeansProgress` | go/source/internal/dedup/dedup.go:261-333 | No deadlock: while a handed-over request is unanswered, collector, timer or a flush can take a step, at once or when the timer comes due |
| `DedupSteps.GivingUpLeavesRequest` | go/source/internal/dedup/dedup.go:219-229 | A caller that gives up leaves its request where it is and never returns an answer |
| `DedupSteps.BatchesStayBounded` | go/source/internal/dedup/dedup.go:261-303 | The timer is armed exactly when the batch is not empty, batches and flushes keep their sizes, and the semaphore its bound |
| `DedupSteps.TimerRunsFromOldest` | go/source/internal/dedup/dedup.go:261-286 | In every state of every run the timer of an open batch is due exactly batchWait after its oldest request was taken, so no request stays longer without the timer being due |
| `DedupSteps.FlushedFullOrDue` | go/source/internal/dedup/dedup.go:261-286 | A batch that is handed to a flush is full, or its timer has run out |
| `DedupSteps.WinnersAreApart` | go/source/internal/dedup/dedup.go:236-244 | In any such history two "not seen" answers for one id are at least one TTL apart |
| `DedupSteps.CallersWinApart` | go/source/internal/dedup/dedup.go:210-333 | Two callers that were both told "not seen" for one id had their commands run at least one TTL apart, whatever batches they were in |
| `Election.FirstSortedIsLeast` | go/source/internal/election/client.go:257-258 | Comparing with the first of the sorted ids decides whether this uuid is the least, whatever order the hash was walked in |
| `Election.StampRoundTrip` | go/source/internal/election/client.go:209-229 | Every announced stamp reads back, with any host and without one |
| `Election.ParseIntExactly` | go/source/internal/election/client.go:229 | What parses: digits with at most one sign in front, whose number fits 64 bits |
| `Election.Hash.Announce` | go/source/internal/election/client.go:208-213 | Sets one field and pushes the expiry of the whole key |
| `Election.Hash.Delete` | go/source/internal/election/client.go:242-249 | Removes exactly the named fields, and the key with the last one |
| `Election.Client.Evaluate` | go/source/internal/election/client.go:184-259 | Announce, read, prune and decide for every combination of failed round trips: primary exactly when least among the fresh, exactly the stale fields gone; with announce and read done, and a cutoff within the window of the announcement, there is a result and the own field stays |
| `Election.FreshByStamp` | go/source/internal/election/client.go:222-238 | By the stamps themselves: primary is who has a stamp at or after the cutoff and is least among those, and a complete cleanup leaves exactly those |
| `Election.Client.Tick` | go/source/internal/election/client.go:152-182 | One evaluation, whose result onChange hears: it hears the successful results with repeats removed; a failed tick changes nothing |
| `Election.ChangesAlternate` | go/source/internal/election/client.go:170-181 | What onChange hears alternates and ends with the last successful result |
| `ElectionSteps.DualPrimaryIsBounded` | go/source/internal/election/client.go:152-259 | Under the timing assumption two instances are both primary only between the first announcement of the lower one and the next successful evaluation of the higher |
| `ElectionSteps.NextEvaluationYields` | go/source/internal/election/client.go:257-258 | That evaluation makes the higher one secondary |
| `ElectionSteps.PruneSparesTheLiving` | go/source/internal/election/client.go:241-249 | Under the timing assumption no HDEL removes the field of a live announced instance |
| `ElectionSteps.AlwaysFindsItself` | go/source/internal/election/client.go:251-255 | A live instance always finds itself fresh, so the guarded error is unreachable |
| `ElectionSteps.StampsDecide` | go/source/internal/election/client.go:222-238 | The stamps the protocol is about stand for the announced values: fresh and stale in the hash are young and old among the stamps |
| `ElectionSteps.NoStampIsStale` | go/source/internal/election/client.go:229-233 | A value that is no stamp is stale |
| `ElectionSteps.TickAnnounces` | go/source/internal/election/client.go:205-220 | Up to its read an undisturbed tick of the protocol leaves a hash that carries what one evaluation announced |
| `ElectionSteps.TickJudges` | go/source/internal/election/client.go:222-259 | From the read on it leaves the fields and the role one evaluation leaves |
| `ElectionSteps.StoppedFieldIsPruned` | go/source/internal/election/client.go:221-249 | The field of a stopped instance is gone after any tick that began more than one window later and whose HDEL ran |
| `ElectionSteps.FailedReadsKeepBothPrimary` | go/source/internal/election/client.go:156-168 | For every number of rounds a timely run in which failing reads keep two primaries |
| `ElectionSteps.PausedInstanceLosesFreshField` | go/source/internal/election/client.go:221-249 | An instance that pauses longer than the window can lose a fresh field to an old read |
| `ElectionSteps.NobodyFreshIsReachable` | go/source/internal/election/client.go:251-255 | The guarded error is then reachable |
| `ElectionSteps.SilentPrimaryKeepsRole` | go/source/internal/election/client.go:156-168 | A primary that stops announcing keeps its role beside a new one |
| `RoleSteps.GateHasLastApplied` | go/source/internal/relay/pipeline.go:300-330 | With applying split from locking the gate has the value applied last, and is right when the last to lock is the last to apply |
| `RoleSteps.CalmGateIsRight` | go/source/internal/relay/pipeline.go:300-330 | In a run in which every setter that locks finds no other between its halves, the gate is open exactly when the instance is primary and a broker is connected, in every state in which none is |
| `RoleSteps.HeldValueCanBeLast` | go/source/internal/relay/pipeline.go:300-330 | From every reachable state with a setter between its halves the run can go on to rest with a wrong gate |
| `RoleSteps.StaleOpen` | go/source/internal/relay/pipeline.go:300-330 | The gate of a secondary can stay open |
| `RoleSteps.PrimaryIsLastRole` | go/source/internal/relay/pipeline.go:300-306 | The pipeline's role is the last one set, whatever connection changes come in between |
| `RoleSteps.ConnectedIsLastReport` | go/source/internal/relay/pipeline.go:312-318 | Its connection state is the last one reported, whatever role changes come in between |
| `RoleSteps.RoleIsLastEvaluation` | go/source/internal/election/client.go:152-182 | The role, and with a connected broker the gate, follow the last successful evaluation |
| `Wiring.SharedTtlIsSafe` | go/source/cmd/antiloop/main.go:382-405 | The shipped settings, one TTL for keys and gate, keep the bound on escapes; no larger age limit does |
| `Wiring.SharedTtlLeavesNoSlack` | go/source/cmd/antiloop/main.go:382-405 | But they leave no slack: drained copies can escape for every arrival lag and drain delay, zero included |
| `Wiring.Start` | go/source/cmd/antiloop/main.go:405-439 | An instance starts secondary, its gate queueing with the dedup TTL as age limit, with the connection state the publisher has |
| `Wiring.Tick` | go/source/cmd/antiloop/main.go:440-455 | A tick is one evaluation, and after it the gate is open exactly when the last successful evaluation won and a broker is connected; a role change releases or holds the backlog, and no change leaves the gate alone |
| `Wiring.ProcessTakesFleetSteps` | go/source/internal/relay/pipeline.go:359-525 | The steps of a copy in the fleet are those of process: discarded, sent to dedup and published in the same cases |
| `Failover.ActiveByLastStretch` | go/source/internal/mqttbroker/mqttbroker.go:363-381 | Whether the backup is wanted is decided by the stretch in progress once it has lasted, and by the earlier ones until then |
| `Failover.ReportKeepsActive` | go/source/internal/mqttbroker/mqttbroker.go:386-448 | A report alone never switches the backup; only time passing does |
| `Failover.SwitchesNeedFullStretch` | go/source/internal/mqttbroker/mqttbroker.go:386-448 | The backup is dialled or hung up only after a full debounce from the first report of an unbroken stretch, and dialled only after an earlier up |
| `Failover.OneTimerAtATime` | go/source/internal/mqttbroker/mqttbroker.go:363-377 | The two timers are never pending together |
| `Failover.BackupFailover.Elapse` | go/source/internal/mqttbroker/mqttbroker.go:408-447 | When timers fire as they come due the backup is held at every moment exactly when the history of reports wants it |
| `Failover.BackupFailover.PrimaryUp` | go/source/internal/mqttbroker/mqttbroker.go:386-414 | An up report cancels the connect timer, is only recorded the first time, and never extends a pending disconnect timer |
| `Failover.BackupFailover.PrimaryDown` | go/source/internal/mqttbroker/mqttbroker.go:420-448 | A down report cancels the disconnect timer, does nothing before the first up, and never extends a pending connect timer |
| `FailoverSteps.AtMostOneBackupClient` | go/source/internal/mqttbroker/mqttbroker.go:317-346 | However callbacks and reports interleave at most one backup client is open, the one the subscriber holds |
| `FailoverSteps.StaleActivation` | go/source/internal/mqttbroker/mqttbroker.go:386-447 | The backup can be dialled while the primary is up |
| `FailoverSteps.OrphanedTimer` | go/source/internal/mqttbroker/mqttbroker.go:405-429 | A late callback can drop the handle of a newer timer |
| `FailoverSteps.OrphanHangsUpBackup` | go/source/internal/mqttbroker/mqttbroker.go:405-447 | The orphan then hangs up the backup although the primary has been down for a full debounce |
| `FailoverSteps.SafeRunFollowsHistory` | go/source/internal/mqttbroker/mqttbroker.go:363-448 | With firing, locking and calling split and delayed at will, as long as no report is unsafe the two handles are never both set and the backup follows the history of reports, up to callbacks still to run |
| `FailoverSteps.UnsafeExactly` | go/source/internal/mqttbroker/mqttbroker.go:386-448 | After such a run a report can be the last one and leave the backup wrong for good if and only if it finds a callback of the other kind fired and unfinished, or overdue with something to change |
| `Relay.ReportsAreNotReportedOn` | go/source/internal/monitor/monitor.go:161-200 | Every report goes out on a topic about which no report is raised |
| `Relay.RelCheckScope` | go/source/internal/monitor/monitor.go:255-266 | The links-rel rule applies unless the topic holds "monitor" or "cache/a/wis2" somewhere or the centre is a Global Broker |
| `Relay.ReportGoesTo` | go/source/internal/monitor/monitor.go:201-213 | A report goes to the wis2 or the wigos monitoring topic of the centre by the third level of the topic it is about |
| `Relay.RulesByVerdict` | go/source/internal/relay/pipeline.go:376-467 | What each check counts and what discards a message, by nothing but the settings and the verdicts |
| `Relay.ReportsAreBounded` | go/source/internal/relay/pipeline.go:376-467 | A message raises at most three reports, none when it is a monitoring message, and at least one when it is discarded |
| `Relay.StricterPublishesLess` | go/source/internal/relay/pipeline.go:376-467 | A stricter policy publishes and claims fewer messages, never others; without any discard only the links-rel rule stops one |
| `Relay.Pipeline.constructor` | go/source/internal/relay/pipeline.go:261-265 | A new pipeline is secondary, disconnected and queueing, and its gate's age limit is the dedup TTL |
| `Relay.Pipeline.ApplyGateState` | go/source/internal/relay/pipeline.go:324-330 | Releases or holds the backlog |
| `Relay.Pipeline.SetPrimary` | go/source/internal/relay/pipeline.go:300-306 | The gate is open exactly when the instance is primary and a broker is connected |
| `Relay.Pipeline.SetPubConnected` | go/source/internal/relay/pipeline.go:312-318 | The same for the other condition |
| `Relay.Pipeline.HandleMessage` | go/source/internal/relay/pipeline.go:342-344 | A received message only enters the gate |
| `Relay.Pipeline.Raise` | go/source/internal/monitor/monitor.go:161-201 | One report, unless the topic is a monitoring one |
| `Relay.Pipeline.CheckTopic` | go/source/internal/relay/pipeline.go:376-398 | Counts and reports a bad verdict when the check is on, and stops the message when it is set to discard |
| `Relay.Pipeline.CheckMessage` | go/source/internal/relay/pipeline.go:402-437 | The links-rel and schema checks: the first stops the message under either policy and is not counted |
| `Relay.Pipeline.CheckMetadata` | go/source/internal/relay/pipeline.go:451-467 | The metadata check, only on data topics |
| `Relay.Pipeline.Process` | go/source/internal/relay/pipeline.go:359-525 | By the settings and verdicts alone: every counter, report, dedup call and publish; a message with nothing against it moves no counter and is published unless dedup has seen it; a bad verdict of a discarding check publishes nothing and leaves the keys alone; otherwise it is counted and the message goes on; a slot taken is a message published |
| `Json.DecodeEncode` | go/source/internal/relay/pipeline.go:639-657 | Writing a Go value as JSON and reading it back gives the value |
| `Json.StripIsExact` | go/source/internal/relay/pipeline.go:639-657 | Stripping removes properties.content and nothing else, and a second time changes nothing |
| `Json.StripKeepsIdExactly` | go/source/internal/relay/pipeline.go:603-657 | For every payload: the id after stripping is read off the last member of each spelling, and the id is kept if and only if that equals the one dedup was asked about |
| `Json.StripKeepsId` | go/source/internal/relay/pipeline.go:603-657 | With at most one id member stripping keeps the id dedup keys on |
| `Json.StripChangesAmbiguousId` | go/source/internal/relay/pipeline.go:603-657 | A payload with two spellings whose published id is not the claimed one |
| `Json.StripLosesNulledId` | go/source/internal/relay/pipeline.go:603-657 | A payload with one spelling, a string followed by null, that is claimed and published without an id |
| `Json.StripGainsId` | go/source/internal/relay/pipeline.go:603-657 | A payload that skips dedup and is published with an id |
| `Network.EveryRunComesToRest` | go/source/internal/relay/pipeline.go:359-525 | Brokers that relay to each other, with any number of copies per publish in any order, process finitely many messages while no key expires, no Redis call fails and every message keeps an id, also through content stripping where a node strips |
| `Network.RestsExactly` | go/source/internal/relay/pipeline.go:475-499 | That last condition is exact: a message given to one of two brokers comes to rest in every run if and only if it keeps an id |
| `Network.StepDecreases` | go/source/internal/relay/pipeline.go:475-499 | Every processed copy lowers a lexicographic measure: unrecorded data ids, data copies, unrecorded ids, copies |
| `Network.OutgoingKeepsIds` | go/source/internal/relay/pipeline.go:639-657 | What is published has no id the received message did not already account for, and its topic |
| `Network.WithoutIdNeverRests` | go/source/internal/relay/pipeline.go:475-476 | A message without an id is handed back and forth for ever |
| `Network.LosingIdNeverRests` | go/source/internal/relay/pipeline.go:490-499 | So is a message that had an id and loses it at the first broker that strips content |
| `Network.NulledIdNeverRests` | go/source/internal/relay/pipeline.go:603-657 | The payload whose id is followed by null is one |
| `Network.WithFailuresNeverRests` | go/source/internal/relay/pipeline.go:476-488 | So is any message whose dedup calls all fail, even between brokers that have recorded it |
| `Network.WithExpiryNeverRests` | go/source/internal/dedup/dedup.go:236-244 | And any message whose keys expire while it is under way |
| `FanOut.Publisher.PublishNow` | go/source/internal/mqttbroker/mqttbroker.go:556-567 | Counts exactly the brokers reached and reports the one that failed last; a failing one does not stop the others |
| `FanOut.LastFailureIs` | go/source/internal/mqttbroker/mqttbroker.go:556-567 | The error is that of the last broker that failed, and the count that of the brokers that did not |
| `FanOut.Publisher.DrainNew` | go/source/internal/mqttbroker/mqttbroker.go:574-579 | What the gate forwards is attempted in the order it forwards it |
| `FanOut.Publisher.Callback` | go/source/internal/mqttbroker/mqttbroker.go:523-535 | After a connection callback the backlog has gone out in order when a broker is connected, and is held otherwise |
| `FanOut.Publisher.Publish` | go/source/internal/mqttbroker/mqttbroker.go:548-554 | With no callback outstanding the publisher and its gate are one queue; in any state a message answered as queued is held if and only if the gate is queueing and its backlog is not full |
| `FanOut.LosesNothing` | go/source/internal/mqttbroker/mqttbroker.go:502-535 | Without an age limit, what went out followed by what is held is everything handed in, in order, if and only if no arrival found the backlog full |
| `FanOut.QueuedButLost` | go/source/internal/mqttbroker/mqttbroker.go:548-554 | Between a disconnect and its callback a message reported as queued is attempted in vain and not held |
| `FanOut.QueuedButDropped` | go/source/internal/mqttbroker/mqttbroker.go:548-554 | Behind 50,000 held messages the next one is reported as queued and dropped |
| `Registry.ParseLine` | go/source/internal/allowlist/gdc.go:211-227 | An accepted line has an id with a colon, and a centre without one |
| `Registry.LineAt` | go/source/internal/allowlist/gdc.go:195-213 | Exactly which lines are accepted and as what: id up to the first comma, centre its fourth part, white space around the line aside |
| `Registry.Scan` | go/source/internal/allowlist/gdc.go:205-258 | The scan's three results agree: the own cache is the own centre's index, the writes are all entries in order, every centre's entries are filed under it |
| `Registry.IndexMembers` | go/source/internal/allowlist/gdc.go:246-249 | An index holds exactly the entries of that centre's lines |
| `Registry.IndexesAreTheRegistry` | go/source/internal/allowlist/gdc.go:235-249 | The union of all indexes, prefixed, is the set of registry keys if and only if every accepted line has a topic |
| `Registry.WriteIndex` | go/source/internal/allowlist/allowlist.go:224-243 | Clear the temporary key, fill it in chunks of at most 500, expire it, rename it: the chunks together are the members |
| `Registry.ReaderSeesOldOrNew` | go/source/internal/allowlist/allowlist.go:210-243 | After every prefix of these commands a reader sees the whole old set, after all of them the whole new one; an empty list changes nothing |
| `Registry.WriteRegistry` | go/source/internal/allowlist/allowlist.go:189-208 | The chunked writes leave the keys of one unchunked write, up to where the connection failed, and succeed exactly when all arrive |
| `Registry.GDCRegistry.Refresh` | go/source/internal/allowlist/gdc.go:186-275 | The cache, the registry keys and every centre's index after a refresh, for each way it can be skipped, fall back, fail or break off in the middle of a write |
| `Registry.GDCRegistry.WriteIndexes` | go/source/internal/allowlist/gdc.go:267-272 | Written in any order, every listed centre whose write got through has its new index, and every other centre its old one |
| `Registry.GDCRegistry.SyncFromIndex` | go/source/internal/allowlist/gdc.go:287-309 | The cache becomes the index, or stays when the read is empty or fails |
| `Registry.GDCRegistry.Has` | go/source/internal/allowlist/gdc.go:358-383 | Cached or registered; an error counts as not registered |
| `RegistrySteps.HasIsExists` | go/source/internal/allowlist/gdc.go:358-383 | In every run of a fleet that refreshes, syncs and breaks off index writes in any interleaving, the cached check equals a plain EXISTS for every topic that is not empty and does not end in a colon |
| `RegistrySteps.HasIsExistsButForBareLines` | go/source/internal/allowlist/gdc.go:358-383 | For all ids and topics: the two differ at most where the question is the entry of an accepted line without a topic |
| `RegistrySteps.AgreesExactly` | go/source/internal/allowlist/gdc.go:211-260 | In every run that fetches only given lists every process answers every question as EXISTS would, if and only if every accepted line of theirs with a centre has a topic |
| `RegistrySteps.WholeSetsOnly` | go/source/internal/allowlist/gdc.go:267-272 | Throughout a refresh nobody interferes with, every index reads as its whole old or whole new set |
| `RegistrySteps.SyncGivesOwnCache` | go/source/internal/allowlist/gdc.go:287-309 | A sync after it gives every listed centre the cache its own refresh would have, and a centre that is gone its old entries |
| `RegistrySteps.RefreshIsRefresh` | go/source/internal/allowlist/gdc.go:186-275 | An undisturbed refresh of the stepwise form leaves the keys, the cache and every index one call of Refresh leaves |
| `RegistrySteps.SyncIsSync` | go/source/internal/allowlist/gdc.go:287-309 | A sync takes over a non-empty index and keeps the cache otherwise; a fallback to the last good copy swaps the cache only |
| `RegistrySteps.TwoWritersMix` | go/source/internal/allowlist/allowlist.go:210-243 | For every keyspace and any two writers of one index with non-empty lists an interleaving that leaves readers the union, which is neither set unless one contains the other |
| `RegistrySteps.TwoWritersSplit` | go/source/internal/allowlist/allowlist.go:210-243 | And for lists of more than one chunk, equal ones included, one that shows readers the first chunks alone and then for good the others alone |
| `RegistrySteps.EmptyTopicIsBelieved` | go/source/internal/allowlist/gdc.go:235-260 | A line without a topic makes the cache answer yes where EXISTS says no |
| `RegistrySteps.BareLineIsBelieved` | go/source/internal/allowlist/gdc.go:235-260 | Every list with such a line makes a process of its centre answer yes where EXISTS says no |
| `RegistrySteps.CutIdIsBelieved` | go/source/internal/allowlist/gdc.go:235-260 | So do questions whose topic ends in a colon, cut from the id of such a line, unless another line registered the very pair |
| `RegistrySteps.ColonTopicIsBelieved` | go/source/internal/allowlist/gdc.go:235-260 | One such list and question |
| `RegistrySteps.FailedWriteIsBelieved` | go/source/internal/allowlist/gdc.go:257-265 | So does a failed registry write, and a key that expires under a cache |
| `TopicHashes.TopicSet.Refresh` | go/source/internal/allowlist/allowlist.go:372-439 | The cache, the keys and the index after a refresh; an empty list, and a write that breaks off, leave the index as it was |
| `TopicHashes.HashesSnoc` | go/source/internal/allowlist/allowlist.go:395-405 | One more line adds its text without the white space around it, unless that is empty or starts with "#" |
| `TopicHashes.TopicSet.SyncFromIndex` | go/source/internal/allowlist/allowlist.go:449-470 | Takes over a non-empty index and keeps everything cached backed by a key |
| `TopicHashes.TopicSet.Has` | go/source/internal/allowlist/allowlist.go:506-528 | A plain EXISTS while everything cached is backed by its key |
| `TopicHashes.TopicSet.RefreshAndSync` | go/source/internal/allowlist/allowlist.go:372-470 | After a completed refresh and an answered sync the cache is the fetched list if and only if that has a hash or the index was empty before; otherwise it is the old index; what was backed by keys stays so |
| `TopicHashes.EmptyListIsUndone` | go/source/internal/allowlist/allowlist.go:372-470 | After a list became empty the next sync brings the old hashes back |
| `Schema.StripNestedIDs` | go/source/internal/wnm/wnm.go:133-153 | The recursive cleanup computes the cleaned tree the lemmas are about |
| `Schema.CleanIsExact` | go/source/internal/wnm/wnm.go:133-153 | At every path stands the cleaned form of what stood there; a path is gone exactly when it led through a dropped key |
| `Schema.PatternsCompile` | go/source/internal/wnm/wnm.go:140-144 | Whatever the path, a pattern that is left compiles |
| `Schema.KeysLeft` | go/source/internal/wnm/wnm.go:133-153 | An object has lost "$id" and "$schema" below the root and a text "pattern" that does not compile, and no other key |
| `Schema.ListsStay` | go/source/internal/wnm/wnm.go:148-151 | No list element is lost or moved, and what is neither object nor list stays as it is |
| `Schema.CleanIsAcceptable` | go/source/internal/wnm/wnm.go:113-153 | Afterwards only the root has "$id" or "$schema" and every pattern compiles |
| `Schema.CleanIsIdempotent` | go/source/internal/wnm/wnm.go:133-153 | The cleanup changes nothing if and only if there is nothing to clean, and a second run changes nothing |
| `Schema.CompilerGetsAcceptable` | go/source/internal/wnm/wnm.go:100-111 | The document handed to the compiler reads back as an acceptable schema |
| `EnvFile.IndexInlineComment` | go/source/internal/envfile/envfile.go:96-103 | The first "#" behind a blank, and none exactly when there is none |
| `EnvFile.QuotedValue` | go/source/internal/envfile/envfile.go:76-79 | Between a pair of either quote any text loads as it is |
| `EnvFile.UnquotedValue` | go/source/internal/envfile/envfile.go:74-83 | An unquoted text loads unchanged if and only if it is trimmed, not wrapped in quotes, and has no blank before a "#" |
| `EnvFile.CommentedValue` | go/source/internal/envfile/envfile.go:80-82 | A trailing comment, a "#" behind a space or a tab, is removed if and only if there is a value before it and the two together are not wrapped in quotes |
| `EnvFile.SurprisingValues` | go/source/internal/envfile/envfile.go:76-83 | A comment behind an empty value is the value; a quoted value with a comment keeps its quotes |
| `EnvFile.Environment.Setenv` | go/source/internal/envfile/envfile.go:85-87 | Sets one variable, or refuses it and changes nothing |
| `EnvFile.Environment.Load` | go/source/internal/envfile/envfile.go:53-90 | Sets the pairs up to the first bad line, whose number and kind it reports |
| `EnvFile.Environment.LoadLine` | go/source/internal/envfile/envfile.go:63-88 | One line: skipped, malformed, set or refused |
| `EnvFile.LoadWritten` | go/source/internal/envfile/envfile.go:53-90 | A written list of settings loads without error as its last-wins merge |
| `EnvFile.LoadUnterminated` | go/source/internal/envfile/envfile.go:61-90 | So it does without its last line feed |
| `EnvFile.LineKinds` | go/source/internal/envfile/envfile.go:65-71 | A line is skipped exactly when it is blank or starts with "#", white space aside, and malformed when it is neither and has no "=" |
| `EnvFile.PairAt` | go/source/internal/envfile/envfile.go:68-83 | Any other line is a pair around its first "=", the key without the white space behind it |
| `EnvFile.SkippedLine` | go/source/internal/envfile/envfile.go:65-67 | A skipped line changes nothing but the numbers of the lines behind it |
| `Strings.LinesAt` | go/source/internal/envfile/envfile.go:61-63 | A text without a line feed is one line unless empty; a line feed ends a line, and what is behind it is read the same way |
| `EnvFile.QuotedRoundTrip` | go/source/internal/envfile/envfile.go:53-90 | Pairs written in quotes load as they are, the last of a key winning, every other variable untouched |
| `EnvFile.LoadIsOverride` | go/source/internal/envfile/envfile.go:53-90 | Loading any file overrides what is there by what the file sets on its own, and fails independently of what is there |
| `EnvFile.Start` | go/source/cmd/antiloop/main.go:135-148 | The centre's file overrides the shared one and the command line both; a bad file ends the start |
| `TopicFilter.MqttTopicMatch` | go/source/cmd/antiloop/main.go:1135-1150 | The loop decides the wildcard relation of MQTT 3.1.1, section 4.7.1, on the levels |
| `TopicFilter.MatchesByLevel` | go/source/cmd/antiloop/main.go:1135-1150 | That relation level by level, where a level matches when it is "+" or equal: under a final "#" the earlier levels match and the topic may stop at the parent or go on |
| `TopicFilter.Match` | go/source/cmd/antiloop/main.go:1116-1126 | Some filter matches, or there is none |
| `TopicFilter.OneMoreFilter` | go/source/cmd/antiloop/main.go:1110-1126 | One more filter lets more topics through unless it is the first |
| `TopicFilter.PlusWidens` | go/source/cmd/antiloop/main.go:1145-1147 | Replacing a level by "+" keeps every match if and only if it was not a final "#" |
| `TopicFilter.HashWidens` | go/source/cmd/antiloop/main.go:1139-1141 | Replacing a suffix by "#" keeps every match if and only if "#" is not added behind a final "#" |
| `TopicFilter.Examples` | go/source/cmd/antiloop/main.go:1128-1134 | "#" takes everything, "a/#" also "a", a "#" in front is a literal, "+" takes exactly one level, and any other single level only itself |

## Left out

- The MQTT, TLS, HTTP and Redis clients: Redis is a set of atomic commands that may fail, a broker ends at the Publish call.
- Whether a broker delivers what it was handed: a failed or queued fan-out is not promised to arrive.
- JSON bytes: escapes, invalid text and the rounding of numbers are not modelled, nor the limits of the line scanners (1 MB a line).
- Schema validation, regular expressions and MD5: `compiles` and the verdicts of the checks are inputs. `topics.Check`, `HasValidRel` and `ClassifySchemaError` are behind those verdicts.
- `extractMetadataID`, the contents of a report other than its topic, and the choice of its error text.
- Metrics other than the four check counters, timing statistics, logging, live debug flags and message injection.
- Refresh cadences, random jitter, the refresh gates' time arithmetic and the liveness keys: a refresh takes the gate's answer as an input.
- Set expiry of registry and index keys: runs of the registry have none, and a witness shows what a key that expires under a cache does.
- `Schema.StripNestedIDs`: returns the cleaned tree instead of deleting in the tree it was given; a decoded JSON document shares no subtrees, so nothing else could see the deletions.
- `Dedup.Redis.Exec`: runs the commands of a pipeline in order with no other client in between; `DedupSteps` has them in any order with others in between.
- `Dedup.Batcher.Flush`: the same for the batch it sends.
- `Election.Client.Evaluate`: has the hash to itself between its round trips; `ElectionSteps` has them interleaved.
- `Registry.GDCRegistry.Refresh`: has the keyspace to itself; `RegistrySteps` interleaves index writes with everybody else's.
- `Registry.GDCRegistry.WriteIndexes`: the same.
- `TopicHashes.TopicSet.Refresh`: has the keyspace to itself; there is no stepwise form of it.
- `Failover.BackupFailover.Elapse`: fires a timer with its callback in one step; `FailoverSteps` splits it.
- `Relay.Pipeline.Process`: takes the verdicts of the checks as inputs, and records the Publish call instead of making it.
- `RegistrySteps.HasIsExists`: takes the cache swap and the registry write of a refresh as one step that succeeds; `RegistrySteps.FailedWriteIsBelieved` shows what a failed write does.
- `RegistrySteps.HasIsExistsButForBareLines`: the same.
- `RegistrySteps.AgreesExactly`: the same.
- Features switched off by a nil Redis, dedup, registry or reporter: the program always sets them.
- The announced values in `ElectionSteps` are their stamps; unparseable fields occur in `Election.Client.Evaluate` only.
- `config`, the fetch cache, the `wis2nodes` tool, deployment files and the original Node-RED flow.
