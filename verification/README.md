# Verification of service-sentinel

A Dafny model of the monitor's alerting, concurrency and persistence, and proofs about it.

The monitor checks a list of services. Each result feeds an UP/DOWN machine with hysteresis, the
state is saved, an alert is sent if the user does not know the status yet, and "the user knows" is
saved again. Checks of different services run concurrently, the control bot can check, add, pause and
remove services meanwhile, and the process can die between any two awaits. The documentation
(`README.md:68-73` of the repository) promises no repeats, no lost alerts and no effect of restarts;
the model shows how far this holds, over every interleaving and every crash.

## How the source is modelled

- `StateMachine` has the mutable `ServiceState` and the methods that assign its fields
  (`state_machine.py:26-85`). `History`, `Reading`, `Hysteresis`, `Outages` and `Records` say what each field
  of a state means in terms of the checks and messages that led to it.
- `AlertProtocol` is the life of one service name: in-memory state, stored row, delivered alerts, and
  what the holder of the name's lock is doing. A move ends where the source awaits: the first save, each
  post of the message, the second save; each may raise, with or without its effect, and a crash may come
  anywhere. `AlertPosts` ties the posts to the retry loop of the Bot API client.
  The log of delivered alerts and the faults belong to one stored incarnation (name and checked URL).
- `Monitor` is the whole program as a transition system: checks and removals as tasks with a program
  counter, one lock object per name, one semaphore, config, registry, both tables, crash and restart.
  `MonitorLocks`, `MonitorPermits` and `MonitorShares` prove its invariants; `MonitorShares` shows that
  every action is, for each name, one move of `AlertProtocol` or none, so that everything proved there
  holds of the whole (`MonitorGuarantees`). `MonitorProgress` is about deadlock and termination,
  `MonitorReAdding` about the lock object that removal discards; `MonitorSolo` connects the
  concurrent system to `Solo`, a check with nothing in between, `MonitorLostMarks` has the runs in which
  the documentation fails, and `MonitorRegistry` connects registry and table to the objects below.
- `Storage`, `Registry`, `MonitorService` are the classes of the same names, with their fields updated
  in place; `MonitorService.CheckService` is proved to do exactly the moves of `Solo`.
- `Masker`, `Bot`, `TelegramCall`, `Pacing` and `Permits` are the log masker, the `getUpdates` loop, the
  Bot API retry loop, the cycle pacing with its heartbeat, and the time a cycle's requests take.

Assumptions, each from the source or its surroundings:

- Adding a service (INSERT, dictionary entry, loading its state) is one atomic step: `add_service` does
  not take the lock (`service.py:90-93`).
- A name is not added again while a check still queues for its discarded lock object (`service.py:101`).
  `MonitorReAdding` proves that this assumption is exactly what mutual exclusion needs.
- A check works with the service snapshot taken when it was requested.
- Thresholds are at least 1 where stated; the config's names are distinct; the semaphore has a permit.
- Wall clock and event-loop clock advance together in `Pacing`; times are real numbers there and whole
  microseconds elsewhere.

Where the code does not do what its documentation says. A *fault* is a message that reached the user
while its answer or its saved mark was lost. The possible faults are: a post that is accepted, gets a network or
server error for an answer, and is posted again; a send that is accepted and raises; a crash during an
accepted send or between it and the save of its mark; that save raising. `OnlyFaultsLoseStep` shows that
there are no others.

- `README.md:11-12` ("one message about the outage, one about the recovery") fails in the first case, with
  no error and no crash: `MonitorLostMarks.LostAnswerCanDuplicate`. `AlertPosts.CopiesOfOneCall` says
  exactly when one send brings more than one copy.
- `README.md:73` ("after a restart there will be no duplicate") and `README.md:15` ("neither repeated nor
  lost alerts") fail after an accepted send that raises and after a crash during an accepted send or before
  the mark is saved. `AlertGuarantees.LostMarkRepeatsOrSilences`: if the next check leaves the status alone,
  the message is sent again; if it changes the status, no message is sent, and the user is left with the
  wrong one. `AlertGuarantees.CheckInformsExactly` gives the condition for any check. The runs are in
  `MonitorLostMarks`, each with exactly one thing going wrong; with the default thresholds a lost DOWN mark
  followed by one success already loses the recovery.
- A raised save of the mark alone does no harm (`AlertGuarantees.RaisedMarkIsStoredLater`); it needs a
  restart before the next save of that service (`AlertGuarantees.RaisedMarkThenCrash`).
- No fault has an effect beyond the next marked delivery: `AlertGuarantees.SendRegainsStep`,
  `MonitorGuarantees.InStepUntilTheNextFault`.
- A registered secret with a `*` at an end or with `***` inside can come back out of its own replacement
  (`Masker.SecretsComeBackExactlyIfUnsafe`), and survives masking unless it contains a token
  (`Masker.SecretsAreLeftExactlyIfNotHideable`).

## Model

| member | source | states |
|---|---|---|
| StateMachine.ApplyCheck | src/monitor/monitoring/state_machine.py:26-60 | updates the state in place to the one whose every field `Reading`, `Outages` and `Records` read off the history, and returns the new status exactly when the status changed |
| StateMachine.MarkNotified | src/monitor/monitoring/state_machine.py:72-77 | the state then says the user knows this status, and forgets the outage after a RECOVERED alert |
| History.IgnoredChecksLeaveNoTrace | src/monitor/monitoring/state_machine.py:28-31 | erasing all IGNORED results from any history, interleaved with notifications, changes only `last_check` and never the pending alert |
| Reading.MachineReadsHistory | src/monitor/monitoring/state_machine.py:26-60 | with fixed thresholds F and R the status is DOWN iff some prefix of the conclusive results ends in F failures with no R successes in a row after it, UNKNOWN iff there was no success and fewer than F failures, else UP; the counters are the trailing run lengths |
| Hysteresis.FallsArePaidFor | src/monitor/monitoring/state_machine.py:42-55 | the k-th transition to DOWN took at least k·F failed and (k−1)·R successful checks |
| Hysteresis.AlertsArePaidFor | src/monitor/monitoring/state_machine.py:63-77 | the same bound for the k-th DOWN alert the user was told |
| Outages.OutagesAreKnown | src/monitor/monitoring/state_machine.py:47-59 | in every honest history the recorded times are those of the running failure streak, of the ongoing outage, or of the last one ended; while the user knows of an outage its begin is never forgotten |
| Outages.RecoveredReportsLastOutage | src/monitor/monitoring/state_machine.py:80-85 | a pending RECOVERED alert always has a downtime: from the first failure of the streak that last turned the service DOWN to the success that ended that outage, cut off at 0 |
| Records.StatusSinceIsTheLastChange | src/monitor/monitoring/state_machine.py:57-59 | over every history `status_since` is the time of the check that last changed the status, and nothing if none ever did |
| Records.LastChecksAreRecorded | src/monitor/monitoring/state_machine.py:28-46 | over every history the other times, code, response time and error are those of the last check of their sort (any, conclusive, successful, failed), and `notified_status` is what the user was told last |
| Records.LastIsLast | src/monitor/monitoring/state_machine.py:28-46 | where the last check of a sort is the one after which no other of that sort follows |
| Records.OutageIsRememberedUntilTold | src/monitor/monitoring/state_machine.py:53-55 | `down_since` is set iff the service fell and the user has not been told of a recovery since |
| Records.OngoingOutageIsTimed | src/monitor/monitoring/state_machine.py:80-85 | the downtime of an ongoing outage, up to a given time, counts from the first failure of the streak that caused it, cut off at 0 |
| Records.ToldIsKnown | src/monitor/monitoring/state_machine.py:72-77 | marking a pending alert makes the current status the known one, leaves nothing pending, forgets the outage iff it is over, and changes nothing else |
| AlertProtocol.MoveKeepsInv | src/monitor/monitoring/service.py:129-238 | every step of a check, of the posts of its message, of a load, removal or crash keeps the invariant: memory and row are what their histories lead to, delivered alerts were pending when sent, repeats are covered by faults, and memory equals the stored row whenever the lock is free and no save raised |
| AlertTally.MoveKeepsTally | src/monitor/monitoring/service.py:215-238 | without a fault the delivered DOWN alerts are exactly those that memory and store remember having told |
| AlertTally.DeliveredAlertsArePaidFor | src/monitor/monitoring/state_machine.py:42-55 | so k delivered DOWN alerts took k·F failed and (k−1)·R successful checks |
| AlertGuarantees.NoRepeatIsAlternation | README.md:68-73 | a log that starts with DOWN has no adjacent repeat iff it alternates DOWN, RECOVERED, DOWN, ... |
| AlertGuarantees.RecoveriesReportTheirOutage | src/monitor/monitoring/service.py:222-227 | every delivered RECOVERED alert reports the outage it ended, even if sends failed and outages overlapped undelivered alerts |
| AlertGuarantees.PendingIsWhatTheUserDoesNotKnow | src/monitor/monitoring/state_machine.py:63-69 | in every protocol state, whatever faults came before, an alert is pending exactly when the last message contradicts the status, iff `notified_status` is in step with that message; the same for memory and for the store |
| AlertGuarantees.FinishedCheckLeavesNothingPending | src/monitor/monitoring/service.py:162-164 | an enabled check whose send succeeded, or was not needed, leaves nothing pending and memory equal to the row |
| AlertGuarantees.PendingSurvives | README.md:71-72 | while no sent message waits for its mark, every move but a send that returns, so also a failed send whose message arrived, a raised save and a crash, leaves pending exactly what the old row would leave pending in the new status |
| AlertGuarantees.SavesAndCrashesLevel | src/monitor/monitoring/service.py:229-237 | a sent message waits for its mark no longer than to the next save that takes effect or to a crash |
| AlertGuarantees.CrashWindowIsExact | src/monitor/monitoring/service.py:229-237 | from a state in step, a crash leaves the store out of step with what was delivered iff it falls between the delivery and the save of its mark, including a delivery whose send has not returned |
| AlertGuarantees.OnlyFaultsLoseStep | src/monitor/monitoring/service.py:228-237 | what is remembered falls out of step with what was delivered iff a message arrived and its answer or its mark was lost |
| AlertGuarantees.FaultLeavesUnmarkedRow | src/monitor/monitoring/service.py:228-237 | each such fault leaves the row as it was, calling for the very message that was delivered last |
| AlertGuarantees.SendRegainsStep | src/monitor/monitoring/service.py:236-237 | a marked delivery puts memory and store in step again, at the price of one repeat iff they were out of step |
| AlertGuarantees.RepeatsAreOutOfStep | README.md:68-73 | a delivery repeats the message before it iff it is made out of step |
| AlertGuarantees.LostAnswerRepeatsTheAlert | src/monitor/telegram/client.py:81-113 | a post whose answer is lost and that is posted again repeats the message within one successful send |
| AlertGuarantees.CheckInformsExactly | src/monitor/monitoring/service.py:129-165 | an undisturbed check with a working notifier leaves the user with the right last message iff memory was in step or that message agrees with the new status; out of step, that is iff he is told twice |
| AlertGuarantees.UnmarkedRowRepeatsOrSilences | README.md:68-73 | from any unmarked row that memory agrees with, the next enabled check sends the same message again iff it leaves the status alone; otherwise nothing is pending and the last message is wrong |
| AlertGuarantees.LostMarkRepeatsOrSilences | README.md:15 | the same after a crash in the window, a crash during an accepted send, and a send that was accepted but raised, for DOWN and RECOVERED alike |
| AlertGuarantees.RaisedMarkIsStoredLater | src/monitor/monitoring/service.py:236-237 | when only the save of the mark raised, memory still knows: the next check of the service stores the mark, repeats nothing and leaves the user informed |
| AlertGuarantees.RaisedMarkThenCrash | src/monitor/monitoring/service.py:236-237 | a crash before that leaves an unmarked row that memory agrees with |
| AlertPosts.CopiesOfOneCall | src/monitor/telegram/client.py:79-114 | one call brings at most one copy per post and, if it returns, at least one; each extra copy had a network or server error for an answer, and there is exactly one copy iff no earlier post was accepted |
| AlertPosts.CallIsSends | src/monitor/telegram/client.py:79-114 | a concluded call is a run of protocol moves: the log gains exactly the accepted copies, and each but a marked one counts as a fault |
| AlertPosts.CallFitsExactlyIfShort | src/monitor/telegram/client.py:50-79 | a check posts its message three times at most |
| MonitorLocks.OneHolderPerName | src/monitor/monitoring/service.py:134-137 | at most one check or removal per name is past the lock |
| MonitorLocks.ActionKeepsLocks | src/monitor/monitoring/service.py:98-101 | every action keeps this, with lock objects created on first use and discarded by removal, if no name is re-added while someone queues for its discarded lock |
| MonitorPermits.ActionKeepsPermits | src/monitor/monitoring/service.py:141-146 | every permit is free or used by exactly one request in progress, whatever fails or is cancelled |
| MonitorShares.ActionIsMoveOnEachShare | src/monitor/monitoring/service.py:81-165 | every action of the concurrent system is, for each name, one possible move of the alert protocol or no change at all |
| MonitorShares.StepOnShare | src/monitor/monitoring/service.py:129-165 | the same for one step of one task: its own name moves, all others stay |
| MonitorRuns.InitHasSystemInv | src/monitor/main.py:124-125 | the first start on an empty database satisfies all invariants |
| MonitorRuns.ActionKeepsSystemInv | src/monitor/monitoring/service.py:81-165 | every action keeps them: locks, permits, registry equal to its table minus the config, a state in memory for exactly the registered names, and each name's protocol invariant |
| MonitorRuns.RunKeepsSystemInv | src/monitor/monitoring/service.py:109-192 | so does every run |
| MonitorGuarantees.AlertsInEveryRun | src/monitor/monitoring/service.py:162-238 | in every run the alerts of a service start with DOWN and repeat a kind at most once per copy whose answer or mark was lost; without such a fault they alternate and `notified_status` is DOWN iff the last delivered alert was DOWN |
| MonitorGuarantees.DowntimesInEveryRun | src/monitor/monitoring/service.py:222-227 | in every run every delivered RECOVERED alert carries the downtime of the outage it ended |
| MonitorGuarantees.PendingInEveryRun | README.md:70-72 | in every run what is pending, in memory or stored, is exactly what the last message contradicts, iff `notified_status` is in step with it |
| MonitorGuarantees.InStepUntilTheNextFault | README.md:68-73 | faults are forgiven: from any state in step, a run without a new fault stays in step and adds no repeat |
| MonitorGuarantees.UndeliveringRunStaysInStep | README.md:71-72 | in a run that delivers nothing for a service, what is in step with its last message stays in step |
| MonitorGuarantees.PendingSurvivesEveryRun | README.md:71-72 | in every run in which no send for a service returns, through any failed sends, whether their messages arrived or not, ignored and abandoned checks, raised saves, crashes and restarts, the row and memory leave pending exactly what the first row would in the new status: an alert stays pending while its status lasts, an outage that ends undelivered leaves none |
| MonitorGuarantees.AlertsCostChecksInEveryRun | src/monitor/monitoring/state_machine.py:42-55 | in every fault-free run with fixed thresholds k delivered DOWN alerts took k·F failed and (k−1)·R successful checks |
| MonitorGuarantees.ExclusionInEveryRun | src/monitor/monitoring/service.py:134-146 | in every run at most one task per name is past its lock and at most the semaphore's number of requests is in progress |
| MonitorGuarantees.MemoryMatchesStoreInEveryRun | src/monitor/monitoring/service.py:81-86 | in every run, whenever the lock of a name is free and its last save did not raise, its memory is what the store would give back |
| MonitorGuarantees.RestartIsInvisible | README.md:73 | a restart at such a moment, with the same service monitored, changes neither memory, row nor log of that name |
| MonitorGuarantees.RestartKeepsRows | src/monitor/monitoring/service.py:215-238 | the process may die at any moment, with any of the messages on their way delivered: every row stays, and each log gains exactly the message that arrived |
| MonitorGuarantees.RemovalIsComplete | src/monitor/storage/sqlite.py:184-188 | after a removal nothing of the name is left in registry, tables or memory |
| MonitorGuarantees.GoneIsLeftAlone | src/monitor/monitoring/service.py:137-140 | no action but re-adding writes anything of a removed name, whoever was checking or queued |
| MonitorGuarantees.RemovedStaysRemoved | src/monitor/monitoring/service.py:95-102 | so in every run a removed name stays removed until it is added again |
| MonitorProgress.StepLowersWork | src/monitor/monitoring/service.py:137-165 | every step of a check or removal, successful or not, lowers a measure |
| MonitorProgress.SomeTaskGoesOn | src/monitor/monitoring/service.py:137-146 | in every reachable state with unfinished checks or removals one of them can go on, if network, store and notifier answer |
| MonitorProgress.EveryAwaitMayRaise | src/monitor/monitoring/service.py:129-174 | every await of an unfinished check or removal may raise, with or without its effect; that ends this task alone: its lock and permit are given back, other tasks and names stay as they are, and the row or the log changes exactly if the save or the send took effect |
| MonitorProgress.TasksTakeFinitelyManySteps | src/monitor/monitoring/service.py:109-165 | however they are interleaved, a finite set of them takes a bounded number of steps |
| MonitorProgress.EveryTaskCanFinish | src/monitor/monitoring/service.py:109-165 | from every reachable state all of them can come to their end |
| MonitorProgress.StuckRunsAreDone | src/monitor/monitoring/service.py:109-165 | every run after which no check or removal can go on has finished them all |
| Solo.SoloCheckEndsIn | src/monitor/monitoring/service.py:147-165 | the protocol moves of an uninterrupted check end with memory and row equal and, if alerts are enabled and the send works, nothing pending |
| Solo.SoloCheckTells | src/monitor/monitoring/service.py:163-164 | if the send works, the log of this incarnation gains exactly the alert its checked state calls for, with its downtime, or nothing; also for the first check of a service |
| MonitorSolo.QuietSystemDoesTheSoloCheck | src/monitor/monitoring/service.py:129-165 | while nothing else goes on, the concurrent system can check a registered service with any result and any fate of the message; this leaves exactly what the sequential check leaves, and touches no other service |
| MonitorSolo.NextCheckDeliversWhatIsPending | README.md:71-72 | whatever failed before, one more check with a working notifier delivers what its result leaves pending, once, and leaves nothing pending |
| MonitorSolo.QuietSystemRemoves | src/monitor/monitoring/service.py:95-102 | while nothing else goes on, a service added from Telegram can be removed; it loses registry entry, row, state and memory, and no other service changes |
| MonitorLostMarks.RestartForgetsAnAlert | README.md:73 | for every enabled configured service there is a run from the first start with one restart, no step that raises and no repeated post, after which the user has been told DOWN and neither memory nor store knows |
| MonitorLostMarks.RestartCanDuplicate | README.md:73 | and one, with the same one restart and nothing else going wrong, in which he is told DOWN twice in a row |
| MonitorLostMarks.RestartCanLoseARecovery | README.md:15 | and, with recovery threshold 1, one after which the service is UP, "down" is the last message and nothing is pending |
| MonitorLostMarks.RaisedSendCanLoseARecovery | README.md:15 | the last with no restart: one send raises although its message arrives, and nothing else goes wrong |
| MonitorLostMarks.LostAnswerCanDuplicate | README.md:11-12 | and a duplicate with no restart and no step that raises: one post is made a second time |
| MonitorReAdding.ReAddingIsSafeExactlyWhenNobodyWaits | src/monitor/monitoring/service.py:90-101 | after adding a name no two holders of it are ever possible iff no check queues for its discarded lock object |
| MonitorReAdding.StaleWaiterGetsIn | src/monitor/monitoring/service.py:101 | with such a check, some run brings two holders of one name past their locks |
| MonitorReAdding.RemovalStrandsWaiters | src/monitor/monitoring/service.py:95-102 | every removal discards the lock object of its name, and leaves every other task that queues for it waiting for a discarded one |
| MonitorReAdding.ReAddingCanBreakExclusion | src/monitor/monitoring/service.py:95-102 | so for every service not in the config there is a run from the first start, in which nothing raises or restarts, after which adding it again breaks mutual exclusion |
| Storage.SortedIsPermutation | src/monitor/storage/sqlite.py:162-168 | the listing has exactly the rows of the table |
| Storage.SortedIsInOrder | src/monitor/storage/sqlite.py:162-168 | in the order of creation time, then name |
| Storage.TextBeforeIsLexicographic | src/monitor/storage/sqlite.py:162-168 | names compare lexicographically: one is a proper beginning of the other, or they first differ in a smaller character |
| Storage.StateStore.ListServices | src/monitor/storage/sqlite.py:162-168 | returns the rows of the table, each once, by creation time and then name |
| Storage.StateStore.Load | src/monitor/storage/sqlite.py:135-150 | a new object with the stored state if name and URL match, else a fresh one |
| Storage.StateStore.Save | src/monitor/storage/sqlite.py:152-154 | the row of this name becomes the state, and no other row changes |
| Storage.StateStore.AddService | src/monitor/storage/sqlite.py:170-176 | appends a row, and fails without effect exactly on an existing key |
| Storage.StateStore.DeleteService | src/monitor/storage/sqlite.py:184-188 | removes the service's row and its state together, and nothing else |
| Storage.WithoutMembers | src/monitor/storage/sqlite.py:184-188 | what is left is exactly the rows of other names |
| Storage.WithoutKeepsOrder | src/monitor/storage/sqlite.py:184-188 | and in their old order |
| Titles.CandidatesDiffer | src/monitor/registry.py:129-130 | numbered names with different numbers differ |
| Titles.CandidatesAreMany | src/monitor/registry.py:129-130 | so `base (2)` to `base (n-1)` are n−2 names |
| Titles.CandidateReads | src/monitor/registry.py:130 | a numbered name reads as its base, a space, and the number in parentheses |
| Titles.DecimalIsNotation | src/monitor/registry.py:130 | in decimal notation: digits without a leading zero, with the right value |
| Titles.StripStrips | src/monitor/registry.py:113 | the stripped text is the text between leading and trailing whitespace |
| Titles.ClippedCuts | src/monitor/registry.py:114-115 | a title of at most 64 characters stays; a longer one is cut to 64, and whitespace where it was cut goes too |
| Registry.TitleIsTheNameOrTheHost | src/monitor/registry.py:113-115 | the title asked for is the given name, stripped and cut, or the host, cut, iff nothing but whitespace was given |
| Registry.NamesRunOutOnlyWhenAllAreTaken | src/monitor/registry.py:128-133 | no numbered name is free iff at least 100 registered names have that form with a number from 2 to 101 |
| Registry.AddNeverRunsOutOfNames | src/monitor/registry.py:106-119 | below the size limit, and with no config name of that form, a free one always exists |
| Registry.UnregisteredIsNotStored | src/monitor/registry.py:116-121 | a name that the registry does not know is not a key of the table |
| Registry.LoadingAgainChangesNothing | src/monitor/registry.py:72-86 | loading again finds the same services, and in the same order if creation times increase |
| Registry.EditsKeepCreationOrder | src/monitor/registry.py:121-149 | adding later rows, removing and pausing keep creation times increasing |
| Registry.MirrorKeepsOrder | src/monitor/registry.py:72-86 | loading keeps the order of the rows: two pieces of the table give two pieces of the list |
| Registry.DropKeepsOrder | src/monitor/registry.py:135-139 | so does removing an entry |
| Registry.ReplaceInPlace | src/monitor/registry.py:141-153 | an updated entry keeps its place |
| Registry.ServiceRegistry.Load | src/monitor/registry.py:72-86 | the dictionary becomes the sorted table minus the names the config shadows |
| Registry.ServiceRegistry.UniqueName | src/monitor/registry.py:128-133 | the least free numbered name, or none iff all are taken |
| Registry.ServiceRegistry.Add | src/monitor/registry.py:100-126 | refused, in this order, iff the text is no URL, 100 services were added already, or a listed service is checked at that URL (naming the first); then a given name that is taken is an error; otherwise dictionary and table gain the same service, enabled, at a URL no listed service is checked at, under a name free in both: the title asked for, or if that is taken and is only the default, its least numbered variant |
| Registry.ServiceRegistry.ChooseTitle | src/monitor/registry.py:113-119 | the asked title if free; if taken, an error when it was given and the least numbered variant when it was not |
| Registry.ServiceRegistry.Insert | src/monitor/registry.py:121-126 | the INSERT never hits an existing key, and table and dictionary stay in step |
| Registry.ServiceRegistry.Remove | src/monitor/registry.py:135-139 | succeeds exactly for stored services no config name shadows, and takes dictionary entry, row and state together |
| Registry.ServiceRegistry.SetEnabled | src/monitor/registry.py:141-153 | succeeds in the same cases; dictionary and table change the same flag, keep their order, and nothing else changes |
| Registry.ServiceRegistry.RequireEditable | src/monitor/registry.py:155-163 | which of the two errors is raised, and that it accepts exactly the services added from Telegram |
| MonitorRegistry.AddShows | src/monitor/registry.py:121-126 | the registry of the transition system is that of the object, seen as maps: adding is its action `Add`, enabled for the same names |
| MonitorRegistry.RemoveShows | src/monitor/registry.py:135-139 | removing is the last step of a removal, which is refused in the same cases |
| MonitorRegistry.SetEnabledShows | src/monitor/registry.py:141-153 | pausing and resuming are its action `SetEnabled`, enabled for every stored service of the dictionary |
| MonitorRegistry.LoadShows | src/monitor/registry.py:72-86 | loading is what a restart does with the table |
| MonitorService.MonitorService.StateOf | src/monitor/monitoring/service.py:81-88 | the in-memory state, or the stored one if there is none or it is for another URL |
| MonitorService.MonitorService.CheckService | src/monitor/monitoring/service.py:129-165 | an uninterrupted check is skipped iff the service is not registered, and otherwise does exactly those protocol moves on this name and touches no other; if alerts are enabled, the notifier is handed exactly the messages by which the log of a successful send grows: one iff the user does not know the status, DOWN iff that is DOWN, RECOVERED with the time from `down_since` to `status_since`, cut off at 0 |
| MonitorService.MessagesAreTheAlerts | src/monitor/monitoring/service.py:215-229 | what a check hands to the notifier is what the alert protocol logs when the send works |
| MonitorService.MonitorService.SaveAndNotify | src/monitor/monitoring/service.py:162-164 | the stored row is the checked state, marked iff alerts are enabled, one was pending and its send worked; the notifier is handed that one announcement of the status and nothing else |
| MonitorService.MonitorService.NotifyIfNeeded | src/monitor/monitoring/service.py:215-238 | one announcement of a status the user does not know, with the downtime of an ended outage, is handed to the notifier, and marked in memory and store iff it was sent |
| MonitorService.MonitorService.LoadState | src/monitor/monitoring/service.py:65-79 | after it the registry mirrors its table, every registered service has the state that memory or store had for it, and nothing else has changed |
| MonitorService.MonitorService.AddService | src/monitor/monitoring/service.py:90-93 | a refusal changes nothing; otherwise dictionary and table gain that one service, and it has the state that memory or store had for its name; other names keep theirs |
| MonitorService.MonitorService.RemoveService | src/monitor/monitoring/service.py:95-102 | a refusal changes nothing; a removed name is gone from registry, tables and memory, and all else in them stays |
| Masker.RewritingCreatesNothing | src/monitor/log.py:31-34 | hiding pieces of a text behind the mask creates no occurrence of a secret that cannot overlap the mask |
| Masker.SecretsComeBackExactlyIfUnsafe | src/monitor/log.py:33 | a secret never survives its own replacement iff it neither starts nor ends with `*` nor contains the mask |
| Masker.ReplaceAllRemoves | src/monitor/log.py:32-33 | later replacements never bring an earlier secret back |
| Masker.TokenLengthIsLongest | src/monitor/log.py:18 | the match at the start of a text is the longest prefix of the pattern's shape, and there is none iff no prefix has it |
| Masker.HasTokenSomewhere | src/monitor/log.py:18 | the scan finds a match iff the pattern matches at some position not preceded by a digit |
| Masker.SubRemovesTokens | src/monitor/log.py:34 | after the substitution the pattern matches nowhere, whatever the masks now stand between |
| Masker.SubFirst | src/monitor/log.py:34 | the first match becomes one `***`, all text before it stays, and the substitution goes on behind it; with `CleanTextIsUnchanged` this determines the result |
| Masker.TokenOfOccurrence | src/monitor/log.py:18 | a text around one in which the pattern matches has a match too |
| Masker.NothingSecretIsLeft | src/monitor/log.py:31-34 | no registered secret that is safe or contains a token occurs in a masked text, and the token pattern matches nowhere in it |
| Masker.SecretsAreLeftExactlyIfNotHideable | src/monitor/log.py:31-34 | a registered secret survives the masking of some text iff it starts or ends with `*` or contains the mask, and contains no token |
| Masker.MaskingSettlesExactlyIfHideable | src/monitor/log.py:31-34 | and iff so, masking some text twice is not masking it once |
| Masker.CleanTextIsUnchanged | src/monitor/log.py:31-34 | a text without registered secrets and tokens is left alone |
| Masker.MaskingIsIdempotent | src/monitor/log.py:31-34 | masking twice is masking once, for any list of secrets each of which is safe or contains a token |
| Masker.ContainedComesLater | src/monitor/log.py:29 | a secret inside another one is replaced after it |
| Masker.LongerIsHiddenWhole | src/monitor/log.py:29-33 | so a longer secret is replaced as a whole, and later replacements see nothing of it |
| Masker.ShorterFirstLeavesRemainder | src/monitor/log.py:29-33 | in the other order the part of it before the shorter secret stays in the text |
| Masker.SecretMasker.constructor | src/monitor/log.py:27-29 | registers exactly the given values of at least 8 characters, each once, longest first |
| Masker.SecretMasker.Mask | src/monitor/log.py:31-34 | the loop computes the replacements in order, then the token substitution: the function that the results above and below are about |
| Masker.InsertByLength | src/monitor/log.py:29 | keeps the list longest first and free of repeats |
| Bot.OffsetConfirmsPosition | src/monitor/telegram/bot.py:115-116 | an offset just past the last update taken confirms to the server exactly what was taken |
| Bot.HandledIsContiguous | src/monitor/telegram/bot.py:71-94 | whatever polls fail, the handled updates are a piece of the stream from the starting point, in order, without gap or repeat |
| Bot.EverythingIsHandled | src/monitor/telegram/bot.py:90-93 | one ample answer, and everything that has arrived since the starting point has been handled |
| Bot.StopCutsToPrefix | src/monitor/telegram/bot.py:91-92 | a stop only cuts what is handled to a prefix |
| Bot.TelegramBot.SkipPendingUpdates | src/monitor/telegram/bot.py:56-65 | after an answered skip nothing that was pending is ever handled; a failed one loses nothing, or all but the last pending update if the server acted on it |
| Bot.TelegramBot.Poll | src/monitor/telegram/bot.py:97-117 | yields the next piece of the stream and moves past it, or fails without losing anything, even if only the answer was lost |
| Bot.TelegramBot.Handle | src/monitor/telegram/bot.py:90-93 | handles the updates in order up to the stop |
| Bot.TelegramBot.Turn | src/monitor/telegram/bot.py:71-93 | one turn of the loop is one step of a reader of the stream; the doubled backoff is that of the number of failures in a row |
| Bot.TelegramBot.Run | src/monitor/telegram/bot.py:67-94 | the whole loop reads the stream from where the skip left it, one reader step per turn |
| Bot.PausesStartOver | src/monitor/telegram/bot.py:71-89 | the pauses of a run are 1, 2, 4, 8, 16, 32 and then 60 seconds within each row of polls that fail, starting over after every answer |
| Bot.StopIsObeyed | src/monitor/telegram/bot.py:71-92 | once shutdown is requested, no update is handled but those already begun, and no later poll is made |
| TelegramCall.Call | src/monitor/telegram/client.py:70-114 | returns the result of the first answer with 200 and ok, or raises at the first rejection, preceded only by network errors, 429 and 5xx; else raises after exactly the allowed posts, all of which failed so; one pause between two posts: the server's `retry_after` of a 429 up to 60 seconds, else the doubled backoff |
| TelegramCall.ConclusionIsUnique | src/monitor/telegram/client.py:79-114 | that description fits only one number of posts and one outcome |
| TelegramCall.PausesAddUp | src/monitor/telegram/client.py:82-112 | without 429 answers the pauses before n+1 posts add up to backoff·(2^n − 1) |
| TelegramCall.PausesAreBounded | src/monitor/telegram/client.py:94-97 | with them, to at most 60 seconds more for each pause |
| Pacing.HeartbeatFile.Check | src/monitor/healthcheck.py:24-34 | healthy iff the file is readable and its age is at most twice its interval and 120 seconds |
| Pacing.RunForever | src/monitor/monitoring/service.py:176-192 | each cycle starts an interval after the last or, if that took longer, at once; a beat follows each, the file holds the last one, and the loop ends in the turn it is stopped in |
| Pacing.StartsAreApart | src/monitor/monitoring/service.py:187 | n cycles apart means at least n intervals apart |
| Pacing.NeverStaleMeansTimely | src/monitor/healthcheck.py:30-34 | no probe ever finds the heartbeat stale iff no two successive beats are further apart than the accepted age |
| Pacing.HealthyExactlyIfCyclesAreShort | src/monitor/main.py:137-147 | in terms of the loop: iff the first cycle, and each cycle with the wait before it, ends in time |
| Pacing.ShortCyclesAreHealthy | src/monitor/healthcheck.py:14-34 | cycles of at most the interval and 120 seconds, timer delays included, are never judged stale |
| Pacing.LongerCyclesAreNoticed | README.md:104-106 | the bound is tight: a longer cycle after an instant one is judged stale by some probe |
| Permits.StartsInTime | src/monitor/monitoring/service.py:141-146 | with m permits handed out in order of arrival and requests of at most T, request k starts within floor(k/m)·T |
| Permits.CycleEndsInTime | src/monitor/monitoring/service.py:112-118 | so all n requests of a cycle that alone uses the semaphore end within ceil(n/m)·T |
| Permits.NoCycleIsFaster | src/monitor/monitoring/service.py:116-118 | with at most m at once, n requests that all take T need at least ceil(n/m)·T, in whatever order permits are handed out |
| Permits.BoundIsAttained | src/monitor/monitoring/service.py:112-118 | handed out in order of arrival, with at most m at once, n requests that all take T end exactly at ceil(n/m)·T |

## Left out

- The HTTP check itself: redirects, TLS, exception texts and the classification of answers; a check is an arbitrary result with outcome, time, code and error.
- SQL text, the date and column encoding of `_to_db` and `_from_db`, schema versions; each store method is one atomic update of two tables.
- Uncommitted statements and commits interleaving on the one shared connection; a save that raises has happened or not, and a deletion that raises has not happened.
- Telegram payloads, keyboards, message texts, routing of updates, and the queue of pending add prompts; handling an update is one step whose failure is swallowed.
- A failure of the initial skip with anything but a `TelegramError`, which ends the bot.
- YAML and environment loading, URL parsing and normalisation: the normalised URL and the host are parameters of `Add`.
- Signals, CLI, Docker, log formatters other than the masker, service ids (SHA-256), metrics.
- Digits outside ASCII in the token pattern, and the order among secrets of equal length.
- Infinities and not-a-number as `retry_after`; delays are real numbers.
- MonitorService.MonitorService.CheckService: the class is sequential, its method is one check with nothing in between; interleavings, locks and the semaphore are in `Monitor`.
- MonitorService.MonitorService.AddService: the state is loaded in the same step as the add; what a check of the same name could do in between is not modelled.
- MonitorRuns.InitHasSystemInv: starts from an empty database; later starts are the restarts of `Monitor`.
- AlertPosts.CallIsSends: an answer of the 4xx range is taken to mean that the message was not accepted.
- Permits.StartsInTime: a permit is handed over without delay, and nobody outside the cycle holds one.
- `run_cycle` is the set of its check requests; its own summary and the wait for all of them have no state to model.
- Paused services: a check never alerts if its snapshot says paused; pausing after the snapshot was taken does not stop its alert.
