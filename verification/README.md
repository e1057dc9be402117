# Host runtime protocols, proved in Dafny

This project models the host runtime of NanoClaw as step protocols and proves what holds over all of
their runs. One host process and one container per session share two SQLite files; timer loops (a 1 s
and a 60 s delivery poll, a 60 s sweep) and inbound routing interleave at every `await`. Around that
core stand the self-contained algorithms the host and its setup rely on.

Every source file has one module, and further ones where its runs or proofs are long. A function
on values says what an operation does; where the source changes state, a class or a method with
loops performs the operation step by step and is proved to compute that function; lemmas then prove
what the functions guarantee, over every input or every sequence of steps.

- `HostSweep`, `HostSweepRuns`: stuck-container verdicts, acknowledgement sync, orphan reset with
  exponential backoff; retries, idempotence and the grace period over all runs.
- `ContainerRunner`, `ContainerErrors`: wake deduplication, spawn, kill, exit and restart; children that report
  'error' and run on.
- `Delivery`, `DeliveryRuns`, `DeliveryDrains`, `DeliveryRepeats`: outbound draining by any number of pollers,
  with restarts and faults, what each drain calls, and when a message is sent again.
- `SessionManager`, `Router`, `RouterRows`, `RouterRuns`: find-or-create of sessions, the fan-out, and sticky engagement with
  any number of fan-outs under way.
- `StateSqlite`, `StateSqliteRuns`: bounded queues and token locks over indexed rows.
- `Crc32`, `Png`: the table-driven CRC-32 and the PNG encoder, after RFC 2083.
- `StatusStream`, `StatusRoundTrip`: the streaming parser of status blocks and its printer.
- `SplitForLimit`: the message splitter.
- `SanitizeEdits`, `TelegramSanitize`, `TelegramSanitizeProof`, `SanitizePasses`, `SanitizeLines`,
  `SanitizeBullets`: the Markdown sanitizer.
- `TelegramPairing`, `PairTelegram`: the pairing-code store and the setup loop around it.
- `CircuitBreaker`: the startup delay.
- `JsText`, `Wrappers`: JavaScript string operations and the optional value.

Where a promise of the code's comments does not hold as stated, the model follows the code, a lemma
gives an input on which the promise fails, and another says exactly when it holds:

- A fresh container is promised 60 s before it can be judged stuck. Claim times are whole seconds, so
  the window ends 60 s after the start of the second of the spawn (`GraceIsExact`,
  `GraceFallsShortOfSixtySeconds`).
- The sweep promises a container it wakes a chance to clean up. The stuck check of the same tick reads
  the claims from before the wake (`WokenContainerKilledAtOnce` is the condition, `WokenContainerIsKilled`
  a run in which it happens).
- An acknowledged message is to be left alone. A reset that listed the claim before the acknowledgement
  still charges it (`AckedStep`, `AckBehindTheListIsReset`); the next sync completes it all the same.
- A session is promised one container. The 'error' handler forgets the session's entry although the process
  may run on, and a later wake starts a second one (`TwoRunExactlyWhen`, `ErrorLeadsToTwo`); without 'error'
  events there is never more than one (`AtMostOneContainer`).
- Sessions are promised unique per agent, chat and thread. A per-thread call with the empty string as
  thread looks for NULL and stores the empty string (`UniquenessBrokenExactlyWhen`,
  `EmptyThreadMakesTwoSessions`, `EmptyThreadNeverSticks`).
- Once a thread has engaged an agent, follow-ups are to engage it too. A follow-up that arrives while the
  mention's fan-out awaits an earlier agent's container overtakes it (`StickyEngagement` is the condition,
  `FollowUpOvertakesMention` a run in which it happens).
- A message is to be delivered once. The adapter gets it again if and only if the record of an earlier
  acceptance was lost, to an exception in this process or to a restart (`AcceptsAgainExactlyWhen`,
  `SentTwiceWithoutRestart`); the bound on how often is reached (`AcceptedAtMostOnce`, `BoundIsReached`).
  What throws after acceptance is `markDelivered` or the adapter itself; `clearOutbox` catches its own
  errors.
- A pairing code identifies its record. A code that a settled record of the last 50 also has finds
  that record (`LookupFindsNewRecord`, `LookupFindsConsumedRecord`).
- List bullets are to be gone from a sanitized text. Stripping unbalanced markers or brackets can bring
  one back, on exactly the texts that `BulletExactlyWhen` describes (`StrippingBringsBulletBack` is one).

## Model

| member | source | states |
|---|---|---|
| `HostSweep.DecideStuckAction` | src/host-sweep.ts:82-118 | the early-exit loop returns the ceiling verdict when the heartbeat is too old, otherwise the first listed claim that is too old and silent, otherwise ok, with the exact ages and limits |
| `HostSweep.DecisionInNumbers` | src/host-sweep.ts:82-118 | with the limits in milliseconds: the ceiling is 30 minutes and the tolerance 60 s, or the timeout that a running Bash call declared if that is longer, and never for another tool; the verdict and the ages and limits in it follow exactly |
| `HostSweep.VerdictIgnoresOrder` | src/host-sweep.ts:107-117 | whether a container is judged stuck does not depend on the order in which SQLite lists the claims |
| `HostSweep.SessionHost.GetProcessingClaims` | src/db/session-db.ts:206-210 | lists every acknowledgement row still in processing exactly once, with its claim time |
| `HostSweep.SessionHost.SyncProcessingAcks` | src/db/session-db.ts:177-190 | exactly the messages acknowledged completed or failed become completed |
| `HostSweep.SessionHost.ResetRow` | src/host-sweep.ts:277-304 | one claim: skipped unless pending and not scheduled for later; failed after five tries, else one more try with delay 5 s times 2 to the tries |
| `HostSweep.SessionHost.ResetRows` | src/host-sweep.ts:277-304 | the loop resets every listed message once and no other |
| `HostSweep.SessionHost.ResetStuckProcessingRows` | src/host-sweep.ts:268-323 | every claimed message is reset and no other, and the claims are emptied if the delete works |
| `HostSweep.SessionHost.CheckSession` | src/host-sweep.ts:228-257 | a running container is asked to be killed, and its claims are reset, if and only if it is judged stuck; the claims of one that is gone are reset |
| `HostSweep.SessionHost.SweepSession` | src/host-sweep.ts:147-212 | one sweep is sync, then wake, then stuck check or crash cleanup on the state and at the time after the wake, with the exact condition of the kill request |
| `HostSweepRuns.BackoffSchedule` | src/host-sweep.ts:294-296 | the computed delays are 5, 10, 20, 40 and 80 s |
| `HostSweepRuns.ResetKeepsInv` | src/host-sweep.ts:268-304 | a reset keeps every message's tries equal to its history of retries on schedule |
| `HostSweepRuns.NextKeepsInv` | src/host-sweep.ts:147-212 | so does every other step of host, container and clock |
| `HostSweepRuns.RetriesFollowTheSchedule` | src/host-sweep.ts:69-70 | over every run: at most five retries, of exactly 5, 10, 20, 40 and 80 s, each begun after the previous delay; a failed message has used all five, at least 155 s after its first reset |
| `HostSweepRuns.FailedExactlyWhen` | src/host-sweep.ts:286-287 | a pending message becomes failed if and only if a reset has listed its claim, its five retries are used up and the last delay is over |
| `HostSweepRuns.DueExactlyWhenDelayOver` | src/host-sweep.ts:281-284 | a rescheduled message is due if and only if its delay is over, which is when it stops being protected from another reset |
| `HostSweepRuns.SyncCompletesAcknowledged` | src/db/session-db.ts:177-190 | a message acknowledged completed or failed becomes completed, and a sync changes nothing else |
| `HostSweepRuns.WakesExactlyWhen` | src/host-sweep.ts:174-186 | a sweep wakes a container that is not running if and only if some pending row triggers and is due to the second; a row without trigger wakes nothing |
| `HostSweepRuns.AckedStep` | src/host-sweep.ts:275-278 | a step does more to an acknowledged message than complete it if and only if it is a reset whose list still has its claim |
| `HostSweepRuns.AckedIsNeverReset` | src/host-sweep.ts:169-172 | over every run, an acknowledged message that no reset under way has listed is never reset, retried or failed again |
| `HostSweepRuns.AckBehindTheListIsReset` | src/host-sweep.ts:275-278 | a run in which the acknowledgement comes between the list and the update: the message stays acknowledged, stays pending, and its tries go from 0 to 1 |
| `HostSweepRuns.ChargedAckIsCompleted` | src/db/session-db.ts:177-190 | the next sync completes such a message all the same |
| `HostSweepRuns.ResetMessageTwice` | src/host-sweep.ts:281-284 | resetting one message twice at one instant is resetting it once |
| `HostSweepRuns.ResetIdempotent` | src/host-sweep.ts:306-323 | a second reset at one instant changes no message whether or not either delete worked; a delete that works leaves no claim; acknowledgements stay |
| `HostSweepRuns.FreshRun` | src/host-sweep.ts:91-98 | after a spawn that found no claims, no heartbeat and no claim is ever older than the spawn's second |
| `HostSweepRuns.GracePeriod` | src/container-runner.ts:151-155 | with its claims cleared, a container spawned at t is not judged stuck up to the start of t's second plus 60 s, or plus the timeout of the Bash call it is in if that is longer, whatever happens |
| `HostSweepRuns.FirstFiftyNineSeconds` | src/container-runner.ts:151-155 | in particular not during its first 59 s |
| `HostSweepRuns.SilentRunIsStuck` | src/host-sweep.ts:107-115 | beyond that bound, a container that claims a message at once and stays silent is judged stuck |
| `HostSweepRuns.GraceIsExact` | src/host-sweep.ts:107-115 | no run is judged stuck at a time and in the midst of a tool if and only if the time is within the bound of that tool |
| `HostSweepRuns.BashIsGivenItsTime` | src/host-sweep.ts:223-226 | a container that starts a Bash call with timeout t, claims at once and stays silent is judged stuck if and only if the start of its second is more than 60 s and more than t ago |
| `HostSweepRuns.GraceFallsShortOfSixtySeconds` | src/host-sweep.ts:66-68 | a container spawned at 0.999 s can be judged stuck 59.002 s later |
| `HostSweepRuns.HeartbeatIsGoodForTheCeiling` | src/host-sweep.ts:100-117 | a heartbeat after all of its claims keeps a container from being judged stuck for exactly the ceiling |
| `HostSweepRuns.ClearedIsNotStuck` | src/host-sweep.ts:174-179 | a container that clears the left-over claims when it starts is not judged stuck then |
| `HostSweepRuns.AcknowledgedIsCompleted` | src/db/session-db.ts:177-190 | a message that a container acknowledges either way is completed by the next sync |
| `HostSweepRuns.SilentRowIsClaimed` | src/host-sweep.ts:174-186 | a row that wakes nothing is still claimed by a container that runs |
| `HostSweepRuns.WokenContainerKilledAtOnce` | src/host-sweep.ts:180-193 | the container woken in a tick is killed in that tick if and only if a left-over claim is older than the tolerance once the wake is done, and exactly the resettable claims are then charged a try |
| `HostSweepRuns.WokenContainerIsKilled` | src/host-sweep.ts:180-193 | a run from the start in which that happens: crash, one minute, wake, kill, one retry charged |
| `ContainerRunner.Host.WakeContainer` | src/container-runner.ts:85-106 | begins a spawn unless a container or a wake is there |
| `ContainerRunner.Host.SpawnEnded` | src/container-runner.ts:95-104 | the wake promise is gone; only a successful spawn adds a container to the map |
| `ContainerRunner.Host.KillContainer` | src/container-runner.ts:193-207 | sends the stop command to the session's container, and SIGKILL if that fails; its state effect is the registered exit callback |
| `ContainerRunner.Host.OnClose` | src/container-runner.ts:177-182 | forgets the container, then wakes the session once per callback if its row still exists |
| `ContainerRunner.Host.RestartSession` | src/container-restart.ts:26-53 | one session: the wake row, the kill and the exit callback |
| `ContainerRunner.Host.RestartAgentGroupContainers` | src/container-restart.ts:21-59 | restarts exactly the sessions with a running container, writes them the wake row, and returns how many they are |
| `ContainerRunner.WakeTimesIsOneWake` | src/container-runner.ts:86-94 | any number of exit callbacks together begin one spawn |
| `ContainerRunner.SignalsAre` | src/container-runner.ts:201-206 | a kill stops the container of its session and no other, and that one gets SIGKILL if and only if the stop failed |
| `ContainerRunner.NextKeepsInv` | src/container-runner.ts:53-63 | the map and the live containers agree, and no session is both running and starting, after every event |
| `ContainerRunner.AtMostOneContainer` | src/container-runner.ts:55-62 | over every run, a session has at most one live or starting container, and the map lists exactly the live ones |
| `ContainerRunner.QuietUntilExit` | src/container-runner.ts:85-89 | until a container exits, no spawn for its session begins, whatever wakes, kills and restarts arrive |
| `ContainerRunner.QuietWhileSpawning` | src/container-runner.ts:90-94 | until a spawn ends, no second one begins and no container appears |
| `ContainerRunner.RestartIsRemembered` | src/container-runner.ts:197-199 | a restart request adds its callback to the running container |
| `ContainerRunner.RestartWritesWakeRows` | src/container-restart.ts:27-45 | a restart with a wake message writes exactly one on-wake row for each listed session with a running container and none for any other; one without writes none |
| `ContainerRunner.RestartStartsOneContainer` | src/container-restart.ts:21-53 | overlapping restart requests lead to exactly one spawn, begun only at the old container's exit and with an on-wake row written before it, and to exactly one fresh container if it succeeds |
| `ContainerRunner.KillAloneStartsNothing` | src/container-restart.ts:46-51 | over every run in which a container sees only kills and restarts without a wake message, its exit starts nothing |
| `ContainerRunner.DeletedIsNotRestarted` | src/container-restart.ts:46-51 | a session deleted before its container exits is not started again, whatever restarts were asked for |
| `ContainerErrors.HappensKeepsInv` | src/container-runner.ts:177-189 | with 'error' and 'close' as separate events, a running container still has its entry unless an event removed it |
| `ContainerErrors.NewlyRunning` | src/container-runner.ts:85-104 | only the successful end of a pending spawn makes a new container run |
| `ContainerErrors.TwoRunExactlyWhen` | src/container-runner.ts:177-189 | over every run: two containers of one session come to run at once if and only if a spawn of the session ends well while a container of it runs whose entry was removed |
| `ContainerErrors.ForgottenOnlyByError` | src/container-runner.ts:184-189 | without an 'error' no running container loses its entry |
| `ContainerErrors.ErrorLeadsToTwo` | src/container-runner.ts:184-189 | a run of a fresh host in which an 'error', a wake and a spawn leave two containers running |
| `Delivery.DeliveryHost.DeliverSessionMessages` | src/delivery.ts:152-163 | does nothing while a drain of the session is in flight, otherwise drains it; the guard is always released |
| `Delivery.DeliveryHost.DrainSession` | src/delivery.ts:165-233 | attempts every undelivered due message in order, whatever the earlier ones did, and settles each |
| `Delivery.OrderIsKept` | src/delivery.ts:183-191 | what a drain attempts is the outbox read at strictly increasing places |
| `Delivery.DeliveryHost.SettleMessage` | src/delivery.ts:192-227 | success marks delivered and drops the counter; a throw counts, and the third marks failed and drops the counter |
| `Delivery.SettledAsAttempted` | src/delivery.ts:192-227 | a message sent or skipped is recorded delivered without a counter, a first or second throw is only counted, a third is recorded failed, and no other message is touched |
| `DeliveryRuns.QueuedOnce` | src/delivery.ts:38-50 | two drains never hold the same message |
| `DeliveryRuns.DrainsStep` | src/delivery.ts:152-163 | every step keeps one drain per session, none locked out, and only unsettled messages queued |
| `DeliveryRuns.NextKeepsInv` | src/delivery.ts:122-233 | every step keeps the counts of acceptances, throws and calls in line with tables and counters |
| `DeliveryRuns.OneDrainAtATime` | src/delivery.ts:38-51 | in every interleaving of pollers at most one drain per session is active, and no session stays locked |
| `DeliveryRuns.AcceptedAtMostOnce` | src/delivery.ts:38-50 | a message is accepted at most once, plus once per restart, plus once per exception between acceptance and record |
| `DeliveryRuns.AttemptsAreBounded` | src/delivery.ts:33-36 | stored counters are 1 or 2 and only for unsettled messages; at most three throws per process lifetime, and a third means recorded failed |
| `DeliveryRuns.SettledIsFinal` | src/delivery.ts:183-186 | a message recorded delivered or failed is never accepted again nor called again: no call more in this process, none at all in a later one |
| `DeliveryRuns.FailedOnThirdThrow` | src/delivery.ts:209-217 | a message becomes recorded failed if and only if its third throw is settled |
| `DeliveryRuns.AlwaysRefused` | src/delivery.ts:206-218 | over every run, a message refused on every call has as many counted attempts as calls, is called at most three times, and is failed at three |
| `DeliveryDrains.DrainedIsCalledOnce` | src/delivery.ts:191-228 | in every interleaving with other polls, drains and new messages, a drain that runs to its end has called the adapter exactly once for each message that was waiting in it, and no other drain has |
| `DeliveryDrains.EnterQueues` | src/delivery.ts:183-186 | a drain that begins has waiting in it exactly the due messages without a record |
| `DeliveryDrains.CallsInOrder` | src/db/session-db.ts:267-275 | in every interleaving from the moment a drain begins: of two messages waiting in it, the one that stands first in the outbox is called first |
| `DeliveryDrains.NewestStandsLast` | src/db/session-db.ts:267-275 | a new message stands behind all that are there, and those keep their order |
| `DeliveryDrains.SkipsWhatIsInFlight` | src/delivery.ts:152-156 | a poll that comes to a session being drained goes on to the next one without touching anything |
| `DeliveryDrains.ThreeDrainsFail` | src/delivery.ts:206-218 | when every call is refused, three finished drains in one process, each begun before the message is settled and with anything but a restart in between, make exactly three calls, and the message is failed |
| `DeliveryDrains.DrainReachesAll` | src/delivery.ts:191-228 | the link to the drain loop: the protocol's steps of one drain, taken without interruption, add up to the settlement the loop computes, whatever the outcomes |
| `DeliveryRepeats.AcceptancesOfALifetime` | src/delivery.ts:192-196 | while a process lives and a message is unrecorded, its acceptances are those an exception followed, and the one about to be recorded if there is one |
| `DeliveryRepeats.AcceptsAgainExactlyWhen` | src/delivery.ts:183-208 | over every run from the empty state: an accepting call is a repeat if and only if an acceptance before the last restart was not recorded or an exception followed one since |
| `DeliveryRepeats.BoundIsReached` | src/delivery.ts:36-50 | for any number of processes, each losing up to two records to exceptions, some run has 1 + restarts + faults acceptances |
| `DeliveryRepeats.SentTwiceWithoutRestart` | src/delivery.ts:193-208 | one exception after an acceptance makes one process send a message twice |
| `SessionManager.FindSessionForAgent` | src/db/sessions.ts:40-61 | finds an active session under the key, if and only if there is one, with the empty thread read as NULL |
| `SessionManager.FindSessionByAgentGroup` | src/db/sessions.ts:64-70 | finds the newest active session of the agent, if and only if there is one |
| `SessionManager.SessionTable.ResolveSession` | src/session-manager.ts:92-133 | the method with its two lookups computes the find-or-create function |
| `SessionManager.ResolveEffect` | src/session-manager.ts:92-133 | what one call does to the sessions under any key: nothing, or one new session where there was none |
| `SessionManager.NextKeepsInv` | src/session-manager.ts:92-133 | every call and every close keeps ids distinct and active sessions unique per key |
| `SessionManager.ActiveSessionsUnique` | src/session-manager.ts:104-112 | over any calls in any mix of modes, at most one active session per agent, chat and thread |
| `SessionManager.UniquenessBrokenExactlyWhen` | src/session-manager.ts:105-120 | the one exception: a call makes a second session under a key if and only if it is a per-thread call with the empty thread, such a session exists, and no NULL-thread session hides it |
| `SessionManager.EmptyThreadMakesTwoSessions` | src/session-manager.ts:105-120 | two such calls on an empty table make two sessions |
| `SessionManager.SameSessionUntilClosed` | src/session-manager.ts:83-91 | shared and per-thread calls keep returning the same session until it is closed, whatever other calls happen |
| `SessionManager.ClosedIsReplaced` | src/session-manager.ts:105-133 | once it is closed, the next such call makes a new session under the key |
| `SessionManager.AgentSharedSession` | src/session-manager.ts:98-103 | an agent-shared call from any chat and thread returns the agent's newest active session, and makes one if and only if there is none |
| `SessionManager.AgentSharedUntilClosed` | src/session-manager.ts:83-91 | such calls from any chats and threads keep returning the same session until it is closed, whatever calls happen for other agents |
| `Router.RouteToAgent` | src/router.ts:277-329 | the loop body for one wiring: decision, session, row, counters and subscription, without an await |
| `Router.RouteToAgents` | src/router.ts:273-342 | the fan-out loop, with anything happening to the sessions table at each await, computes the fan-out function, and records a drop if and only if nothing engaged or accumulated |
| `Router.OneWiringEffect` | src/router.ts:404-422 | one wiring opens a session only for its own agent, chat and thread, and only when it engages past the gates or accumulates |
| `Router.DecidesExactlyWhen` | src/router.ts:281-310 | a wiring wakes if and only if its agent exists, it engages (any text, a matching pattern, a mention, or a sticky mention in a group with the thread's session) and neither gate refuses, and stores silently if and only if it does not engage and accumulates |
| `RouterRows.TurnResolves` | src/router.ts:404-422 | the session of a turn is the one its wiring, chat and thread have (for agent-shared the agent's newest) if there is one, and the single new one otherwise, with the thread counted in the groups of threaded adapters and for per-thread wirings |
| `RouterRows.RowsAreDecided` | src/router.ts:277-329 | whatever other code does at the awaits, the rows written are exactly those of the wirings decided, each at its own turn, to wake or to store and let through by the command gate, in their order, each to the right session; the counters count the decisions; one subscribe at most, exactly if a waking wiring asks for it |
| `RouterRows.RefusedIsNeverWritten` | src/router.ts:310-319 | a message on which a wiring engages at its turn, also by its session, and which a gate refuses has no row for its agent, under any policy and whatever happens meanwhile |
| `RouterRuns.TurnEffect` | src/router.ts:258-263 | a turn of one wiring opens another agent's session never, its own if and only if it is a passing mention or accumulates |
| `RouterRuns.SessionExistsWhen` | src/router.ts:391-398 | in every interleaving of fan-outs, the thread's session exists if and only if an earlier turn opened it |
| `RouterRuns.StickyEngagement` | src/router.ts:358-362 | in every interleaving, a wiring engages on a message if and only if it is a mention or an earlier turn of this wiring opened the session; under drop, an earlier turn for a mention that passed both gates |
| `RouterRuns.FollowUpOvertakesMention` | src/router.ts:286-288 | a follow-up that arrives while the mention's fan-out awaits the first agent's container does not engage the second |
| `RouterRuns.EmptyThreadNeverSticks` | src/router.ts:391-398 | with the empty string as thread a follow-up does not engage |
| `StateSqlite.MaxIdx` | src/state-sqlite.ts:124-128 | the largest index, none if and only if there is no row |
| `StateSqlite.MinIdx` | src/state-sqlite.ts:160-163 | the smallest index, none if and only if there is no row |
| `StateSqlite.NextIndex` | src/state-sqlite.ts:124-128 | the next row follows the last one, and restarts at 0 after a full drain |
| `StateSqlite.AppendRefines` | src/state-sqlite.ts:122-138 | appending keeps indices consecutive and keeps exactly the last maxSize entries |
| `StateSqlite.PopRefines` | src/state-sqlite.ts:158-166 | dequeueing removes and returns the first entry |
| `StateSqlite.SizeRefines` | src/state-sqlite.ts:168-174 | the row count is the queue's length |
| `StateSqlite.CleanupRefines` | src/state-sqlite.ts:178-183 | cleanup leaves queues alone |
| `StateSqlite.CleanupExactly` | src/state-sqlite.ts:178-183 | a cleanup deletes exactly the rows whose expiry has passed |
| `StateSqlite.SqliteStateAdapter.AppendToList` | src/state-sqlite.ts:122-138 | the whole new table of one append, with TTL and length limit |
| `StateSqlite.SqliteStateAdapter.Enqueue` | src/state-sqlite.ts:152-156 | appends to the thread's queue and returns the depth found after whatever other calls do at the await in between |
| `StateSqlite.SqliteStateAdapter.Perform` | src/state-sqlite.ts:122-183 | each await-free stretch of an operation computes the table step |
| `StateSqlite.SqliteStateAdapter.Dequeue` | src/state-sqlite.ts:158-166 | the oldest entry or none, and the table without it |
| `StateSqlite.SqliteStateAdapter.AcquireLock` | src/state-sqlite.ts:88-98 | drops an expired lock, inserts unless one is held, and returns the new lock or none |
| `StateSqlite.SqliteStateAdapter.ReleaseLock` | src/state-sqlite.ts:100-102 | deletes the row only if the token matches |
| `StateSqlite.SqliteStateAdapter.ExtendLock` | src/state-sqlite.ts:104-114 | moves the expiry of row and lock object if the token matches, otherwise changes neither |
| `StateSqlite.SqliteStateAdapter.ForceReleaseLock` | src/state-sqlite.ts:116-118 | deletes the row whatever its token |
| `StateSqlite.SqliteStateAdapter.Cleanup` | src/state-sqlite.ts:178-183 | removes exactly the expired locks and list rows |
| `StateSqliteRuns.StepRefines` | src/state-sqlite.ts:150-174 | every table operation answers as the FIFO specification and keeps the tables representing it |
| `StateSqliteRuns.RunRefines` | src/state-sqlite.ts:150-174 | over every sequence of steps the answers agree and the reached table still represents the reached queues |
| `StateSqliteRuns.QueuesAreFifo` | src/state-sqlite.ts:150-174 | in every interleaving on all threads, depths and entries are those of FIFO queues that keep their last maxSize entries, and each queue's rows hold exactly its entries under consecutive indices |
| `StateSqliteRuns.DepthIsOwnIfUndisturbed` | src/state-sqlite.ts:152-156 | an enqueue counts what it made if nothing touches the thread's queue at the await |
| `StateSqliteRuns.OverlappingEnqueues` | src/state-sqlite.ts:152-156 | two overlapping enqueues on an empty queue both get 2 |
| `StateSqliteRuns.AppendedLives` | src/state-sqlite.ts:122-131 | an append puts its entry last and touches no other list; with a time to live the entry outlasts exactly the cleanups up to its end |
| `StateSqliteRuns.LimitKeepsTheLast` | src/state-sqlite.ts:132-138 | an append with a limit keeps exactly the last entries of the list |
| `StateSqliteRuns.LosesExactlyWhen` | src/state-sqlite.ts:88-118 | an owner loses its lock in a step if and only if it is released with its token, force-released, or found expired by an acquire or the cleanup |
| `StateSqliteRuns.LostForGood` | src/state-sqlite.ts:100-114 | a token that lost its lock never owns it again and neither releases nor extends its successor's |
| `StateSqliteRuns.OwnerKeepsLock` | src/state-sqlite.ts:88-114 | while the clock is never past the expiry the lock has then, and without release or force-release, the owner keeps the lock however often it extends it, so every other acquire of the thread fails |
| `StateSqliteRuns.UnextendedLockStays` | src/state-sqlite.ts:88-98 | without an extension the lock row stays as it is up to its expiry |
| `StateSqliteRuns.AcquireSucceedsExactlyWhen` | src/state-sqlite.ts:88-98 | an acquire succeeds if and only if no lock is held or it has expired, with a token nobody had and the expiry ttlMs from now in the row as in the answer, and touches no other thread |
| `StateSqliteRuns.ExtendsExactlyWhen` | src/state-sqlite.ts:106-114 | only the owner's token extends, and the stored expiry is then ttlMs from now |
| `StateSqliteRuns.ReleasesExactlyWhen` | src/state-sqlite.ts:100-102 | only the owner's token releases |
| `StateSqliteRuns.AcquiredIsExclusive` | src/state-sqlite.ts:88-98 | over every run from a successful acquire at t, without release, force-release or extension, every acquire of the thread up to and including t + ttlMs fails |
| `StateSqliteRuns.ExtendedIsExclusive` | src/state-sqlite.ts:106-114 | an extension at u moves that bound to u + ttlMs |
| `StateSqliteRuns.NextAcquireExactlyWhen` | src/state-sqlite.ts:88-98 | the next acquire of the thread succeeds if and only if it comes after t + ttlMs |
| `StateSqliteRuns.LockLastsItsTime` | src/state-sqlite.ts:88-98 | a run on a fresh adapter: a lock taken for ttlMs is refused for that long and free a moment later |
| `Crc32.PolyIsTheConstant` | setup/lib/teams-manifest.ts:122 | the constant 0xedb88320 is the generator polynomial of section 3.4 of RFC 2083, lowest bit first |
| `Crc32.OnesAreOnes` | setup/lib/teams-manifest.ts:131-135 | the initial register and the final complement are all 32 bits |
| `Crc32.ShiftsLinear` | setup/lib/teams-manifest.ts:121-123 | any number of shift steps is linear over exclusive or |
| `Crc32.EightShifts` | setup/lib/teams-manifest.ts:130-133 | eight shifts of a word are the table entry of its low byte plus its upper part moved |
| `Crc32.SerialIsShifts` | setup/lib/teams-manifest.ts:129-135 | adding the message bits first and shifting afterwards is the bit-serial division |
| `Crc32.TableStepIsSerial` | setup/lib/teams-manifest.ts:132 | one table step is eight steps of the bit-serial division |
| `Crc32.TableEntry` | setup/lib/teams-manifest.ts:120-124 | the inner loop computes eight shifts of the index |
| `Crc32.CrcTable` | setup/lib/teams-manifest.ts:117-127 | the table holds the eight-fold shift of every byte |
| `Crc32.ComputeCrc` | setup/lib/teams-manifest.ts:129-135 | the table-driven loop computes the bit-serial CRC-32 of every byte sequence |
| `Png.WriteChunk` | setup/lib/teams-manifest.ts:137-144 | length, type, data and the CRC of type and data, in this order |
| `Png.FilterRows` | setup/lib/teams-manifest.ts:161-169 | the two loops fill the buffer with every pixel row behind a zero filter byte |
| `Png.EncodePng` | setup/lib/teams-manifest.ts:150-178 | the encoder produces signature and three chunks, or fails on a length that 32 bits do not hold |
| `Png.UnfilterRows` | setup/lib/teams-manifest.ts:161-169 | removing the filter bytes recovers the pixel rows, for every width and height |
| `Png.BytesInNumbers` | setup/lib/teams-manifest.ts:113-147 | the signature and the chunk names are the bytes of RFC 2083, and numbers have their most significant byte first |
| `Png.ReaderFindsThreeChunks` | setup/lib/teams-manifest.ts:172-177 | a reader of section 3.2 of RFC 2083 finds exactly IHDR, IDAT and IEND, with valid CRCs |
| `Png.DecodeEncode` | setup/lib/teams-manifest.ts:146-178 | decoding what was encoded gives back width, height and pixels, for any invertible deflate; the encoder fails if and only if a length does not fit in 32 bits |
| `StatusStream.StatusStreamer.Write` | setup/lib/runner.ts:66-75 | the line loop computes the parse of the buffered text and calls back for each block closed |
| `StatusStream.StatusStreamer.ProcessOneLine` | setup/lib/runner.ts:77-97 | one line: header, end marker, field or nothing |
| `StatusStream.ChunkingDoesNotMatter` | setup/lib/runner.ts:66-75 | writing chunks one by one equals writing their concatenation |
| `StatusStream.SameTextSameResult` | setup/lib/runner.ts:52-57 | any two ways of cutting a text give the same blocks, open block and buffer |
| `StatusStream.EmitStatus` | setup/status.ts:6-16 | the printer's lines joined, header first and end marker last |
| `StatusRoundTrip.FieldIsRecorded` | setup/lib/runner.ts:92-96 | a printed field line is read back as its name and value |
| `StatusRoundTrip.FieldIsTrimmed` | setup/lib/runner.ts:92-96 | a field's name is what stands before the first colon and its value what stands behind it, without the white space around them |
| `StatusRoundTrip.OtherLinesRecordNothing` | setup/lib/runner.ts:92-96 | a line without a colon, or with nothing before it, records nothing |
| `StatusRoundTrip.HeaderExactlyWhen` | setup/lib/runner.ts:78-82 | a line opens a block if and only if it starts with the marker, one word and the closing signs, and the word is the kind |
| `StatusRoundTrip.OneBlock` | setup/status.ts:10-15 | one printed block is parsed to exactly its step and fields |
| `StatusRoundTrip.ParsePrintedBlocks` | setup/lib/runner.ts:58-98 | any printed blocks among lines that are no headers, cut into chunks in any way, are parsed to exactly those blocks, none open |
| `StatusRoundTrip.FieldsMapHolds` | setup/lib/runner.ts:96 | the parsed map holds exactly the printed names, each with its last value |
| `SplitForLimit.Cut` | src/channels/chat-sdk-bridge.ts:120-123 | the cut is inside the window and makes progress |
| `SplitForLimit.CutIsAtBreakIfAny` | src/channels/chat-sdk-bridge.ts:120-123 | the cut is at the last blank line of the window, else at its last line break, else at its last space, and at the limit only if it has none |
| `SplitForLimit.FindCut` | src/channels/chat-sdk-bridge.ts:120-123 | the four assignments compute the cut |
| `SplitForLimit.SplitText` | src/channels/chat-sdk-bridge.ts:115-129 | the loop terminates and computes the chunks |
| `SplitForLimit.PiecesAreGood` | src/channels/chat-sdk-bridge.ts:119-128 | every chunk fits, later ones are nonempty and start with a visible character, all but the last end with one, gaps are white space, and a cut without a gap has no break in its window |
| `SplitForLimit.ChunkEndsAtBestCut` | src/channels/chat-sdk-bridge.ts:118-128 | every chunk but the last is what stands before the best place of its window without the white space at its end, and the rest is split on without the white space at its start |
| `JsText.SpacesAre` | src/channels/chat-sdk-bridge.ts:124-125 | what trimming takes for white space, by code point |
| `JsText.TrimDropsBoth` | src/channels/telegram-pairing.ts:160 | trimming drops exactly the white space on both sides |
| `SplitForLimit.SplitKeepsText` | src/channels/chat-sdk-bridge.ts:115-129 | the same for the whole function, and chunks woven with the gaps are the text |
| `SanitizeEdits.EditedTwice` | src/channels/telegram-markdown-sanitize.ts:24-49 | two passes that only replace blank and markup characters are one such pass |
| `SanitizeEdits.EditedKeepsVisible` | src/channels/telegram-markdown-sanitize.ts:24-49 | such a pass keeps the visible characters and their order |
| `TelegramSanitize.MaskCode` | src/channels/telegram-markdown-sanitize.ts:18-22 | the replacing scan puts a numbered placeholder for every code segment and collects the segments in order |
| `TelegramSanitize.SanitizeTelegramLegacyMarkdown` | src/channels/telegram-markdown-sanitize.ts:15-55 | the sequence of rewrites of `text` computes the sanitizing function |
| `TelegramSanitizeProof.GapsAndSegments` | src/channels/telegram-markdown-sanitize.ts:18-22 | code segments and the gaps between them make up the text |
| `TelegramSanitizeProof.SegmentsAreCode` | src/channels/telegram-markdown-sanitize.ts:11 | every segment is a fenced block up to its first closing fence, or inline code on one line |
| `TelegramSanitizeProof.GapsHoldNoCode` | src/channels/telegram-markdown-sanitize.ts:11 | no code starts anywhere in a gap |
| `TelegramSanitizeProof.RewriteEdits` | src/channels/telegram-markdown-sanitize.ts:24-49 | all passes together only replace blank and markup characters, so placeholders survive |
| `TelegramSanitizeProof.RewriteBalances` | src/channels/telegram-markdown-sanitize.ts:39-49 | after the passes the counts are balanced whatever the passes before did |
| `TelegramSanitizeProof.RestoreJoin` | src/channels/telegram-markdown-sanitize.ts:51-54 | restoring puts every segment back in its place |
| `TelegramSanitizeProof.SanitizeKeepsCode` | src/channels/telegram-markdown-sanitize.ts:15-55 | for input without NUL: every code segment comes back byte for byte and in order, the stretches between keep their visible characters, and over them `*` and `_` are even and `[` and `]` equal in number |
| `SanitizePasses.BulletsLeaveNone` | src/channels/telegram-markdown-sanitize.ts:24-29 | after the bullet pass no line starts with a list bullet |
| `SanitizePasses.NoLineStartsAt` | src/channels/telegram-markdown-sanitize.ts:24-34 | what the recursive "no line starts with" means position by position |
| `SanitizePasses.RulesLeaveNone` | src/channels/telegram-markdown-sanitize.ts:31-34 | after the rule pass no line is a horizontal rule |
| `SanitizePasses.PairsDowngrade` | src/channels/telegram-markdown-sanitize.ts:36-37 | a doubled pair around a stretch of text becomes a single one |
| `SanitizePasses.StrippingBringsBulletBack` | src/channels/telegram-markdown-sanitize.ts:39-43 | stripping the odd star of `*- x` leaves a list bullet |
| `SanitizeLines.FenceIsOneSegment` | src/channels/telegram-markdown-sanitize.ts:11 | a fenced block is one code segment, up to its first closing fence, whatever is inside and behind it |
| `SanitizeLines.InlineIsOneSegment` | src/channels/telegram-markdown-sanitize.ts:11 | so is inline code with something in it |
| `SanitizeLines.LinesEndAt` | src/channels/telegram-markdown-sanitize.ts:29-34 | where a line ends for the multi-line patterns |
| `SanitizeLines.BulletLine` | src/channels/telegram-markdown-sanitize.ts:29 | a list item keeps its indentation and gets a round bullet and one blank |
| `SanitizeLines.RuleLine` | src/channels/telegram-markdown-sanitize.ts:34 | a line of at least three rule marks, with blanks around them, becomes the divider |
| `SanitizeLines.PlainTextIsLeftAlone` | src/channels/telegram-markdown-sanitize.ts:15-55 | text without code, bullets, rules and doubled markers and with balanced markers and brackets comes out as it went in |
| `SanitizeBullets.NoBulletBeforeBalancing` | src/channels/telegram-markdown-sanitize.ts:24-37 | up to the balancing steps no line starts with a list bullet |
| `SanitizeBullets.BalancingStrips` | src/channels/telegram-markdown-sanitize.ts:39-49 | the two balancing steps together leave out exactly the kinds of characters whose counts are off |
| `SanitizeBullets.BulletExactlyWhen` | src/channels/telegram-markdown-sanitize.ts:24-49 | a rewritten text has a bullet line if and only if a balancing step strips something and some line reads white space, a marker and white space with the stripped characters left out |
| `SanitizeBullets.BalancedTextHasNone` | src/channels/telegram-markdown-sanitize.ts:24-49 | with even marker counts and equal bracket counts no bullet is left |
| `TelegramPairing.CodesDiffer` | src/channels/telegram-pairing.ts:110-112 | padding to four digits keeps different draws apart |
| `TelegramPairing.GeneratedIsFree` | src/channels/telegram-pairing.ts:107-116 | a generated code has four digits and is no active one; generation fails if and only if every draw is active |
| `TelegramPairing.CreationFailsExactlyWhen` | src/channels/telegram-pairing.ts:107-116 | a creation fails if and only if each of its fifty draws is the code of a record that stays pending |
| `TelegramPairing.PlainCodeExactlyWhen` | src/channels/telegram-pairing.ts:168-173 | a message that does not start with @ carries a code if and only if it is exactly four digits between white space |
| `TelegramPairing.AddressedCode` | src/channels/telegram-pairing.ts:155-173 | a code behind the bot's name and any white space is extracted |
| `TelegramPairing.AddressesExactlyWhen` | src/channels/telegram-pairing.ts:155-161 | a text addresses the bot if and only if it starts with an at sign and the name in any case, with nothing or no name character behind it |
| `TelegramPairing.CodeIsFourDigits` | src/channels/telegram-pairing.ts:168-173 | a code is four digits |
| `TelegramPairing.FindPending` | src/channels/telegram-pairing.ts:187 | the first pending record with the code, or none if there is none |
| `TelegramPairing.PairingStore.CreatePairing` | src/channels/telegram-pairing.ts:118-143 | supersedes the intent's pending records, draws until a free code, appends the record; on failure writes nothing |
| `TelegramPairing.PairingStore.InvalidatePending` | src/channels/telegram-pairing.ts:198-207 | the loop records the miss on every pending record and invalidates it, and touches no other |
| `TelegramPairing.PairingStore.TryConsumeCode` | src/channels/telegram-pairing.ts:180-229 | consumes the first pending record with the code, or invalidates all pending ones |
| `TelegramPairing.NextKeepsInv` | src/channels/telegram-pairing.ts:118-229 | every operation keeps the store's invariant |
| `TelegramPairing.ReachableStores` | src/channels/telegram-pairing.ts:118-229 | every reachable store has at most 51 records, pending records differ in code and in intent, and each record saw at most one guess, its own code if consumed and another if invalidated by it |
| `TelegramPairing.EachRecordSettlesOnce` | src/channels/telegram-pairing.ts:118-228 | over every run: each record of the store that is still kept at its end is where the count of creations puts it, unchanged or out of the pending state once, and a settled one unchanged; records fall out in front only while 50 others stay |
| `TelegramPairing.GuessSettles` | src/channels/telegram-pairing.ts:187-228 | a guess consumes exactly the pending record with its code; if there is none, nothing stays pending |
| `TelegramPairing.ConsumedFields` | src/channels/telegram-pairing.ts:216-228 | what a consumed record holds, field by field |
| `TelegramPairing.MissedFields` | src/channels/telegram-pairing.ts:193-214 | a wrong code is kept as the one attempt of each pending record it invalidates |
| `TelegramPairing.AttemptsAreAppended` | src/channels/telegram-pairing.ts:200 | in any record the newest attempt is last and the last ten are kept |
| `TelegramPairing.MatchIsAppended` | src/channels/telegram-pairing.ts:221-224 | so is the attempt that matches |
| `TelegramPairing.CreationKeeps` | src/channels/telegram-pairing.ts:118-143 | a creation invalidates exactly the pending records of its intent, leaves all others alone and appends a pending record; without a free code nothing is written |
| `TelegramPairing.SweepKeepsTheLast` | src/channels/telegram-pairing.ts:100-104 | a sweep keeps the last fifty records |
| `TelegramPairing.LookupFindsNewRecord` | src/channels/telegram-pairing.ts:239-243 | looking up a new code finds the new record if and only if no other of the last 50 has the code |
| `PairTelegram.WaitForPairing` | src/channels/telegram-pairing.ts:257-330 | the wait ends at the first look that sees the record consumed, invalidated or gone, with any number of operations between two looks |
| `PairTelegram.Turn` | setup/pair-telegram.ts:75-113 | one turn of the loop: the verdict, or the next code after a wrong guess |
| `PairTelegram.RunSetup` | setup/pair-telegram.ts:68-115 | the loop computes the run: the codes issued, the verdict and the final store |
| `PairTelegram.AtMostSixCodes` | setup/pair-telegram.ts:68-115 | whatever else happens to the store, at most six codes are issued, giving up for wrong guesses takes all six, and success comes only with a consumed record of the last code |
| `PairTelegram.BatchExactly` | src/channels/telegram-pairing.ts:281-318 | however many messages come between two looks, the first that is a code decides what the next look sees |
| `PairTelegram.WaitExactly` | src/channels/telegram-pairing.ts:281-318 | the wait is decided by the first message that is a code: consumed with the sender's details if it is the right one, invalidated otherwise |
| `PairTelegram.SetupExactly` | setup/pair-telegram.ts:68-115 | with codes no record has and no other pairing under way, the run issues codes in turn until a wait whose first code is the right one or that sees none, six at most, with the matching verdict |
| `PairTelegram.FirstSetupExactly` | setup/pair-telegram.ts:68-115 | on an empty store the same holds whenever the first draws differ |
| `PairTelegram.LookExactly` | src/channels/telegram-pairing.ts:257-330 | a look goes by the first of the last fifty records with the code: paired with it if consumed, burned if invalidated, waiting if pending, lost if there is none |
| `PairTelegram.EndsWithoutPairing` | setup/pair-telegram.ts:75-113 | a run whose record is gone ends with an error, one whose looks run out is still waiting, and neither issues another code |
| `PairTelegram.NoCodeIsIssuedExactlyWhen` | setup/pair-telegram.ts:68-115 | a run issues no code if and only if its first creation finds none, and then writes nothing |
| `PairTelegram.LookupFindsConsumedRecord` | src/channels/telegram-pairing.ts:239-243 | a run that creates a pairing, consumes it and draws the same code again: looking up the new, pending code finds the old record and reports its chat as paired |
| `CircuitBreaker.Breaker.EnforceStartupBackoff` | src/circuit-breaker.ts:46-84 | the attempt is written before the wait: one more than the last within the hour, otherwise 1, with its delay |
| `CircuitBreaker.Breaker.ResetCircuitBreaker` | src/circuit-breaker.ts:39-44 | a clean shutdown forgets the attempts |
| `CircuitBreaker.DelaysNeverShrink` | src/circuit-breaker.ts:8-11 | without a clean shutdown and within the hour each startup counts one up, and delays never shrink nor exceed 900 s |
| `CircuitBreaker.DelaysAre` | src/circuit-breaker.ts:8-11 | the delays are 0, 0, 10, 30, 120 and 300 s, and 900 s from the seventh attempt on |
| `CircuitBreaker.CountsOnWithinTheHour` | src/circuit-breaker.ts:39-70 | a start counts on if and only if the saved one is less than an hour ago; otherwise, and after a clean shutdown, it is the first again, without delay |
| `CircuitBreaker.AtMostNineMore` | src/circuit-breaker.ts:46-84 | n startups completed so far leave room for at most 9 - n more in the hour |
| `CircuitBreaker.AtMostNineInAnHour` | src/circuit-breaker.ts:34-37 | fewer than ten startups complete within an hour of a first attempt, even if processes die while waiting |
| `CircuitBreaker.NineAreReached` | src/circuit-breaker.ts:8-11 | a process that crashes as soon as it is up completes nine |

## Left out

- Times are integer milliseconds; file modification times with fractions, and the parsing of SQLite timestamp texts, are not part of the model (an unparsable text is a separate case).
- A session without an outbound database, the recurrence fan-out, the typing indicator, attachments, voice and JSON parsing: they carry no state that the properties need.
- SweepSession: the container, and other host code at the await, act between the phases of the runs (sync, wake, decision, listing of the claims, reset), not inside one; the method itself describes a sweep in which only time passes.
- ResetStuckProcessingRows: the rows of one reset are updated at one instant; a claim or an acknowledgement that a container writes between two of those updates is not modelled, one between the list and the updates is (AckedStep). The container has been stopped by then unless the stop command failed.
- RetriesFollowTheSchedule: cancelTask, pauseTask, resumeTask and updateTask (src/modules/scheduling/db.ts:38-107) also write messages_in and are not steps of the runs; an updateTask that moves the process_after of a rescheduled task makes it due sooner or later than its delay, and a paused or cancelled task is not pending.
- AtMostOneContainer: is stated for runs without 'error' events; with them TwoRunExactlyWhen holds.
- GracePeriod: is stated with a spawn that finds no claims; what a spawn with left-over claims meets is WokenContainerKilledAtOnce.
- KillContainer: how the container reacts to the signals is outside the model; the exit is a separate event ('close') that may come at any later time or never; 'error' is an event in ContainerErrors only.
- WakeContainer: the resolved boolean is not modelled, only the effect on the map and the promises; a spawn that returns early because its agent group is missing is the outcome NoAgentGroup.
- RestartAgentGroupContainers: the content of the wake row is not modelled, only that one is written.
- DeliverMessage and its branches (adapter, system actions, agent-to-agent) are one outcome per call: accepted, skipped, refused, or accepted and then thrown.
- AcceptedAtMostOnce: message ids are taken to be unique across sessions, as the attempt counters take them; a marking write that fails after an acceptance is the outcome SentThenThrew, other marking writes are taken to succeed.
- ResolveSession: the session folder and its two databases are not created in the model; random ids are distinct numbers.
- Router: a fan-out that an exception stops is one that takes no more turns; a session made before a row write fails has its row in the model. Regular expressions are a parameter saying which patterns match; the gates are parameters; the row's address and content are not modelled.
- RefusedIsNeverWritten: is stated for one wiring per agent, as the table's UNIQUE constraint has it (src/db/migrations/001-initial.ts:38).
- StickyEngagement: is stated for threaded adapters, group chats, one wiring per agent and a thread other than the empty string, for which EmptyThreadNeverSticks holds instead; no session is closed meanwhile.
- StateSqlite: the key-value table, subscriptions and getList are left out; tokens are numbers from a counter, so they are fresh.
- QueuesAreFifo: other lists do not use keys that start with "queue:", as in the program.
- EncodePng: the pixel array has width * height * 4 bytes, as its comment demands; deflate is an invertible function; the manifest and the zip are left out.
- Texts are sequences of Unicode characters, not of UTF-16 code units; lengths and cuts count characters.
- EmitStatus: the fields are the name and value pairs as Object.entries lists them, each value already as the text that is printed.
- ParsePrintedBlocks: field names are trimmed, nonempty, without colon and not starting with '='; the name `__proto__`, which a JavaScript object treats specially, is not excluded in the model.
- SplitText: the limit is at least 1; with limit 0 the program need not terminate.
- SanitizeTelegramLegacyMarkdown: input that itself contains NUL is covered by the method, not by SanitizeKeepsCode.
- AddressedCode: the bot's name is taken literally (letters, digits and underscores, ASCII case folding); names with characters special to regular expressions are left out.
- PairingStore: each operation is one atomic step under its mutex; the file, its parsing and writes by other processes are left out.
- WaitForPairing: when the file watcher or the poll looks is a parameter, the grouping of the operations; the echo of wrong attempts is left out.
- SetupExactly: the command-line arguments, the database set-up and the printed status blocks are left out.
- EnforceStartupBackoff: a file that parses to something other than an attempt and a timestamp is left out; the clock may jump back, except in AtMostNineInAnHour, where events follow each other in time.
- The gateway restart counter and the callback decoders of chat-sdk-bridge.ts, the CLI, the set-up channels and prompts: short branches or plumbing.
