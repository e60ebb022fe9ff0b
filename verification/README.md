# Sentinelix backend: verified models

Dafny models of the stateful protocols of the Sentinelix backend, with proofs of what they keep in
every run. `dafny verify dfyconfig.toml` checks the whole project.

Each protocol is a step system over values: a state, the calls a component can make to Redis,
Postgres or the network, and for every call a reply that may be a failure, where a failed call may
or may not have taken effect at the server. Components that update their state in place are also
written as classes whose methods follow the Go control flow. The methods of the ingest consumer, the
monitor API, the monitor supervisor and the project cache are proved to take only steps of their step
system, with the rest of the system moving between any two of their calls; those of the other classes
run under a lock or are taken as one step, and are proved against the step function. Either way, what
is proved about all runs holds of the code.

| file | covers |
|---|---|
| `Fingerprint.dfy` | the fingerprint normaliser and the pre-hash string |
| `IngestProtocol.dfy`, `IngestSafety.dfy`, `IngestDrain.dfy`, `IngestRuns.dfy`, `IngestConsumer.dfy` | the ingest stream, its pending list, retries and the dead-letter stream |
| `IngestGrouping.dfy`, `IngestDelivery.dfy` | which events share an issue and what the rows say; what reads, scans, claims and crashes hand out |
| `Arithmetic.dfy`, `RateLimiter.dfy`, `RateLimiterAnswers.dfy` | the sliding-window rate limiter, its expiring counters, and its answers from both sides |
| `MonitorSync.dfy`, `MonitorSupervisor.dfy` | commit-then-publish in the API, the sync loop and the supervisor in the worker |
| `MonitorStatus.dfy`, `MonitorThresholds.dfy` | the up/down status machine of a monitor, its notifications, and changes of its threshold |
| `Alerts.dfy` | cooldown per rule and issue, and the threshold tick with its cache |
| `Hub.dfy` | WebSocket rooms and bounded client channels |
| `RefreshTokens.dfy` | refresh-token rotation and the response to reuse |
| `ProjectCache.dfy` | the read-through project cache |

## What the proofs found

Where the code and its own documentation disagree, the models follow the code.

- An entry can be lost. `moveToDLQ` acks whatever became of the append, so an entry whose DLQ append
  fails is nowhere afterwards. `LossExactlyWhen` says this ack is the only step that loses an entry,
  and exactly when it does; `BadEntryCanBeLost` is a run.
- A new issue can stay silent. When the first attempt upserts the issue and then fails to insert the
  event, the retry finds the row, takes the issue for an old one and never raises the `issue.created`
  broadcast or the new-issue alert the repository's README promises; a crash before them does the same
  without any failed call (`StoredButNeverAnnounced`, `CrashSilences`). A publish that fails costs the
  broadcast alone, and a crash after it, or a failure to list the rules, the alert alone
  (`RefusedBroadcast`, `CrashLosesAlert`). `NeverAnnouncedExactlyWhen` and `NeverAlertedExactlyWhen` say
  over whole runs which issues miss which, `SilencedExactlyWhen` which steps bring that about, and
  `SilencedForGood` that no later step repairs it.
- A monitor can be announced as down twice in one failure run. `Sync` reads the row first and replaces
  the checker later, so the old checker can notify in between, and the new one, which starts from the
  stale status, notifies again. `OneNoticePerRunExactlyWhen` says when, `StaleSpawnNotifiesTwice` is a
  run.
- A failure run can go without any notice. A checker spawned from a row that already said down, or one
  whose last success did not get through to its status, never announces: `MissedExactlyWhen`. A single
  lost reply to the status update, followed by a respawn, is enough: `MissedForEver`.
- A rate-limit counter can stay in Redis for ever. Only the request that sees the count 1 sets the
  expiry, so if its reply is lost or its EXPIRE fails, nobody ever sets it: `AliveBeyondThreeExactlyWhen`,
  `LeakedCounterStays`.
- The comment at pkg/fingerprint/hash.go:40-41 says the separator prevents false matches. It does so
  only for messages without a bar; `PreHashCollidesExactlyWhen` gives all collisions.
- A swallowed publish error costs the worker its agreement with the table exactly when the change had
  an effect (`SwallowedPublishExactlyWhen`), until that monitor is changed again (`LostNoticeLasts`).
- The supervisor's startup rebuild can undo a change: it starts a checker for a deleted monitor, or for
  an outdated row, when the notice about the change was dealt with first. `ConvergesPerMonitor` says
  exactly when, `RebuildRace` is a run.
- The comment at internal/domain/monitor.go:136-139 says the status column is written after every
  ping; the code writes it only on a change, and so does the model.
- The comment at internal/repository/redis/cached_project_repo.go:93-97 says that a delete through the
  API invalidates the cache. cmd/api/main.go:81-95 gives the project use case the undecorated
  repository, so it does not: `UnwiredDeleteServesUntilExpiry`. The decorator's own delete is final
  only when nobody reads the key between the cache delete and the row delete
  (`DecoratorDeleteIsFinal`, `ReadInTheGapRevives`).
- Four rate-limit counters of an identity can be alive without any failure, exactly when the window has
  a fraction of half a second or more (`FourAliveExactlyWhen`); every configured window is whole.

## Model

| member | source | states |
|---|---|---|
| `IngestSafety.NoSilentLoss` | internal/worker/ingest_consumer.go:84-261 | in every reachable state of producer, both loops, crashes and failing calls, each pushed entry is undelivered, pending, stored as its own event row, dead-lettered with its own payload, or one whose DLQ append failed |
| `IngestSafety.AckOnlySettled` | internal/worker/ingest_consumer.go:193-258 | whatever step takes an entry off the pending list, the entry is then stored, dead-lettered, or its DLQ append failed |
| `IngestSafety.LossExactlyWhen` | internal/worker/ingest_consumer.go:177-196 | a step loses an entry if and only if it is an applied ack of `moveToDLQ` for a pending entry that nobody stored or dead-lettered |
| `IngestSafety.RetryBound` | internal/worker/ingest_consumer.go:100-168 | per entry at most one `processMessage` from `Run`, at most maxDeliveryCount from the reclaim loop, in every interleaving and with crashes and failing acks |
| `IngestSafety.IssueCountsAddUp` | internal/usecase/group_issue.go:30-44 | an issue's count is its applied upserts; the counts together exceed the event rows by exactly the attempts that upserted without inserting |
| `IngestSafety.NewIssueAnnouncedAtMostOnce` | internal/worker/ingest_consumer.go:230-245 | the broadcast and the alert each happen at most once per issue, retries included; once no loop owes one of them it has happened exactly once or has been missed |
| `IngestSafety.SilencedForGood` | internal/worker/ingest_consumer.go:218-245 | a missed broadcast or alert of an issue is made up for by no step of any run |
| `IngestSafety.SilencedExactlyWhen` | internal/worker/ingest_consumer.go:218-245 | a step costs a new issue its broadcast or its alert if and only if it reports a creating upsert, or the insert after it, as failed, or fails that very publish or evaluation, or is a crash while it is owed; no step gives one back |
| `IngestSafety.NeverAnnouncedExactlyWhen` | internal/worker/ingest_consumer.go:218-233 | over whole runs, with no broadcast pending, `issue.created` was never sent for an existing issue if and only if such a step occurred for it |
| `IngestSafety.NeverAlertedExactlyWhen` | internal/worker/ingest_consumer.go:241-245 | over whole runs, with no alert pending, the new-issue rules were never evaluated for an existing issue if and only if such a step occurred for it |
| `IngestGrouping.EventsShareIssueExactlyWhen` | internal/usecase/group_issue.go:30-41 | in every reachable state two stored events share their issue if and only if they are of one project and hash the same string, and an event's issue is of its own project |
| `IngestGrouping.BarFreeEventsShareIssueExactlyWhen` | internal/usecase/group_issue.go:30-41 | for messages without the separator: if and only if project, message and normalised top frame agree |
| `IngestGrouping.IssueRowIsItsEvents` | internal/repository/postgres/issue_repo.go:37-55 | in every reachable state an issue row exists if and only if an event of that project and hash was upserted; the first one gave it title, level and first-seen time, the latest its last-seen time, and its count is how many there were |
| `IngestGrouping.UpsertsWerePushed` | internal/usecase/group_issue.go:30-36 | nothing is upserted that was not pushed |
| `IngestGrouping.DeadLettersTellWhy` | internal/worker/ingest_consumer.go:157-215 | a dead letter's reason is true of its entry: payload missing, undecodable, or claimed more than the maximum number of times |
| `IngestDelivery.ReadDelivers` | internal/worker/ingest_consumer.go:84-104 | a read that takes effect makes the next unread entries, ten at most, pending, and hands them to `Run` in order if its reply arrives; the rest of the pending list stays |
| `IngestDelivery.RedeliveredExactlyWhen` | internal/worker/ingest_consumer.go:143-155 | a step hands a pending entry out again if and only if it is an applied claim of the next scanned entry, last handed out at least the minimum idle time ago; the delivery count goes up by one |
| `IngestDelivery.ScanReturnsExactly` | internal/worker/ingest_consumer.go:130-137 | an entry is scanned if and only if it is pending, idle long enough, and has fewer than fifty such entries before it |
| `IngestDelivery.CrashLeavesRestToReclaim` | internal/worker/ingest_consumer.go:84-168 | after a crash `Run` never takes up an entry delivered before it, and the server has lost nothing |
| `IngestDrain.PendingListDrains` | internal/worker/ingest_consumer.go:129-170 | from any reachable state with n pending entries, n*(max+1)/50 + (max+1) calm scans empty the pending list even if grouping always fails |
| `IngestDrain.CalmRoundIsRound` | internal/worker/ingest_consumer.go:129-170 | in one calm scan, however interleaved with `Run`, every scanned entry leaves or gains a delivery, and those over the maximum leave |
| `IngestDrain.ScanSize` | internal/worker/ingest_consumer.go:130-137 | a scan returns every idle entry or 50 of them |
| `IngestRuns.BadEntryCanBeLost` | internal/worker/ingest_consumer.go:177-207 | a concrete run that loses a structurally bad entry, for every configuration |
| `IngestRuns.RetryBoundIsReached` | internal/worker/ingest_consumer.go:143-168 | the retry bound is met: an entry that never groups is tried maxDeliveryCount + 1 times |
| `IngestRuns.StoredButNeverAnnounced` | internal/worker/ingest_consumer.go:218-245 | a concrete run in which the retry stores the event and the new issue is never announced |
| `IngestRuns.CrashSilences` | internal/worker/ingest_consumer.go:218-233 | a concrete run without a failed call in which a crash costs a stored new issue both signals |
| `IngestRuns.RefusedBroadcast` | internal/worker/ingest_consumer.go:230-245 | a concrete run in which a failed publish costs the broadcast and not the alert |
| `IngestRuns.CrashLosesAlert` | internal/worker/ingest_consumer.go:230-245 | a concrete run in which a crash after the broadcast costs the alert |
| `IngestConsumer.IngestConsumer.ProcessMessage` | internal/worker/ingest_consumer.go:198-261 | takes only protocol steps; it fails if and only if the payload decodes and one of the two grouping calls fails; a bad entry ends settled, a grouped one stored, a failed one is not acked by this loop |
| `IngestConsumer.IngestConsumer.MoveToDLQ` | internal/worker/ingest_consumer.go:177-196 | takes only protocol steps and leaves the entry dead-lettered, stored, or marked as a failed append; append and ack take effect when their replies say so, independently |
| `IngestConsumer.IngestConsumer.Execute` | internal/usecase/group_issue.go:30-44 | upsert and insert as two separate steps; an error if and only if one of their replies is; success leaves the loop ready to broadcast with the right `created` flag; this loop never comes to an ack meanwhile, so an error leaves the message unacked |
| `IngestConsumer.IngestConsumer.Announce` | internal/worker/ingest_consumer.go:230-245 | the publish step is taken, then the alert step for an issue this attempt created and no alert step for any other; a failure of either leads to the ack all the same |
| `IngestConsumer.IngestConsumer.AckStored` | internal/worker/ingest_consumer.go:258-260 | the entry is stored when its final ack has been attempted |
| `IngestConsumer.IngestConsumer.RunOnce` | internal/worker/ingest_consumer.go:84-104 | one read and the processing of its whole batch is a run of the protocol, the other loop interleaved |
| `IngestConsumer.IngestConsumer.ReclaimOnce` | internal/worker/ingest_consumer.go:129-170 | one scan and the handling of every entry it returned is a run of the protocol, the other loop interleaved |
| `IngestConsumer.IngestConsumer.ReclaimNext` | internal/worker/ingest_consumer.go:143-169 | the next scanned entry is claimed; if that succeeds, a count before the claim over the maximum leaves it settled by the dead-letter path, any other count sends it through `processMessage`; otherwise nothing follows |
| `Fingerprint.NormalizedHasNoLineNumber` | pkg/fingerprint/hash.go:56-58 | no ':' followed by a digit remains, for every frame |
| `Fingerprint.FixedPointsAreClean` | pkg/fingerprint/hash.go:56-58 | normalising changes a frame if and only if it has a line number |
| `Fingerprint.NormalizeIdempotent` | pkg/fingerprint/hash.go:56-58 | normalising twice is normalising once |
| `Fingerprint.NormalizeKeepsTheTexts` | pkg/fingerprint/hash.go:13-58 | a frame put together from texts and line numbers normalises to its texts |
| `Fingerprint.EveryFrameSplits` | pkg/fingerprint/hash.go:13-58 | every frame is put together that way, so the previous row describes them all |
| `Fingerprint.ExtractTopFrame` | pkg/fingerprint/hash.go:47-54 | the first-match loop returns the first trimmed line that is not empty |
| `Fingerprint.TopFrameIsFirstNonBlankLine` | pkg/fingerprint/hash.go:47-54 | blank lines before and anything after the first non-blank line do not matter |
| `Fingerprint.BlankTraceHasNoFrame` | pkg/fingerprint/hash.go:47-54 | the frame is empty if and only if every line is blank |
| `Fingerprint.RenumberedTracesGroupTogether` | pkg/fingerprint/hash.go:36-58 | traces whose top frames differ only in the digits after colons have the same pre-hash string |
| `Fingerprint.PreHashCollidesExactlyWhen` | pkg/fingerprint/hash.go:40-42 | two (message, frame) pairs meet if and only if they are equal or a bar moves from message to frame |
| `Fingerprint.BarFreeMessagesNeverCollide` | pkg/fingerprint/hash.go:36-45 | messages without the separator character meet if and only if message and normalised frame agree |
| `Fingerprint.SeparatorIsNotEnough` | pkg/fingerprint/hash.go:40-42 | a concrete collision of two different messages |
| `Fingerprint.TrimsBothEnds` | pkg/fingerprint/hash.go:47-54 | trimming removes the white space at both ends and nothing else |
| `Fingerprint.CrlfMakesNoDifference` | pkg/fingerprint/hash.go:47-54 | a trace with carriage returns at its line ends has the same top frame |
| `CounterKey.ShareExactlyWhen` | internal/repository/redis/ratelimiter.go:57-58 | limiters with different prefixes share a counter if and only if one prefix extends the other at a colon |
| `CounterKey.ConfiguredLimitersAreApart` | cmd/api/main.go:56-59 | the four limiters of the API share no counter, whatever the identities |
| `CounterKey.KeyInjective` | internal/repository/redis/ratelimiter.go:57-58 | the formatted key determines identity and window, even for identities containing ':' |
| `SlidingWindow.ExpiryIsInvisible` | internal/repository/redis/ratelimiter.go:51-92 | on a monotone clock expiring counters give the verdicts of counters that never forget, with failing calls too |
| `SlidingWindow.StoreFaithful` | internal/repository/redis/ratelimiter.go:60-81 | after every request history each stored counter holds the ideal count and expires no sooner than the end of the next window |
| `SlidingWindow.AliveBeyondThreeExactlyWhen` | internal/repository/redis/ratelimiter.go:60-74 | a counter is alive beyond its own window and the two that follow if and only if the first request counted in it never saw its count or its EXPIRE was not applied; otherwise at most three are alive (windows without a fraction of half a second or more) |
| `SlidingWindow.LeakedCounterStays` | internal/repository/redis/ratelimiter.go:63-74 | one such request leaves its counter alive at every later time |
| `SlidingWindow.FourAliveExactlyWhen` | internal/repository/redis/ratelimiter.go:53-74 | with working calls only, four counters of an identity can be alive if and only if the window's fraction is half a second or more |
| `SlidingWindow.BoundaryBound` | internal/repository/redis/ratelimiter.go:51-92 | (before + after) * W <= L * W + before * e for what a window and the next up to second e allowed |
| `SlidingWindow.NoBurstAtTheBoundary` | internal/repository/redis/ratelimiter.go:83-91 | a window and the first second of the next together allow at most the limit |
| `SlidingWindow.FewerThanTwiceTheLimit` | internal/repository/redis/ratelimiter.go:51-92 | any W consecutive seconds allow fewer than twice the limit |
| `SlidingWindow.UnderTheLimitIsAllowed` | internal/repository/redis/ratelimiter.go:83-91 | a request is allowed while this and the previous window hold at most the limit, itself included |
| `LimiterAnswers.AnswerExactlyWhen` | internal/repository/redis/ratelimiter.go:51-92 | on a monotone clock: an error if and only if a call the request needs fails, otherwise yes if and only if p*(W-e) + (c+1)*W <= L*W for the p and c requests counted in the previous and this window, in whole seconds |
| `LimiterAnswers.ThrottledExactlyWhen` | internal/repository/redis/ratelimiter.go:83-91 | after a window with exactly L counted requests, the i-th request of the next is allowed if and only if i*W <= L*e at its second e |
| `LimiterAnswers.SpacedRequestsPass` | internal/repository/redis/ratelimiter.go:83-91 | so an identity that spaces its requests gets floor(L*e/W) of them through by second e |
| `LimiterAnswers.ThrottleBound` | internal/repository/redis/ratelimiter.go:83-91 | and no more, however the requests come |
| `RateLimiter.RateLimiter.Allow` | internal/repository/redis/ratelimiter.go:51-92 | given the replies of Redis, answers what `LimiterAnswers.AnswerExactlyWhen` says of the requests so far, and counts this one even if it is denied |
| `RateLimiter.RateLimiter.Decide` | internal/repository/redis/ratelimiter.go:51-92 | the Redis calls in order leave the specified store and give the specified verdict, failures included; `LimiterAnswers.AnswerExactlyWhen` says what that verdict is |
| `MonitorSync.Converges` | internal/worker/monitor_sync.go:28-64 | from worker start, with no lost notice or failed lookup, once all is processed the live checkers are the table if and only if the rebuild was not overtaken, in any order of commits, publishes, lookups and spawns |
| `MonitorSync.ConvergesPerMonitor` | internal/worker/monitor_checker.go:44-139 | for each monitor whose own notices were not lost, or were made good since: it is out of step if and only if the rebuild spawned an outdated row after the last notice about it had been dealt with |
| `MonitorSync.ConvergesAfterCalmRebuild` | internal/worker/monitor_checker.go:44-55 | after a rebuild during which no row still to be spawned changed, every run converges to the table |
| `MonitorSync.ConvergesWithoutLoss` | internal/worker/monitor_sync.go:28-64 | from worker start, when every publish arrives and every lookup works: the live checkers are the table if and only if the rebuild was not overtaken |
| `MonitorSync.TableIsLastWrites` | internal/repository/postgres/monitor_repo.go:24-134 | after any path the table holds a monitor if and only if its last turn was its creation, with the row written last for it |
| `MonitorSync.CheckersChangeOnlyBy` | internal/worker/monitor_checker.go:70-139 | a step changes a monitor's live checker if and only if it is a spawn of a row of it or its removal notice; a failed or empty lookup leaves it running |
| `MonitorSync.RebuildRace` | internal/worker/monitor_checker.go:44-55 | a run from worker start in which a removal overtakes the rebuild and a deleted monitor keeps its checker |
| `MonitorSync.SwallowedPublishExactlyWhen` | internal/usecase/monitor.go:84-205 | a create, update or delete on a settled system converges if and only if its publish worked or it changed nothing |
| `MonitorSync.LostNoticeLasts` | internal/usecase/monitor.go:88-95 | after a lost notice the monitor stays out of step in every continuation that does not change it again |
| `CheckerPool.SingleLiveChecker` | internal/worker/monitor_checker.go:70-82 | in every interleaving of rebuild, sync and removal a monitor has at most one running checker, and the cancel map lists exactly those running |
| `CheckerPool.ShutdownLeavesNone` | internal/worker/monitor_checker.go:55-63 | after cancellation nothing runs, whatever is still spawned, and the final loop cancels every checker |
| `MonitorSupervisor.MonitorSupervisor.PoolConverges` | internal/worker/monitor_checker.go:44-139 | convergence of the code's own cancel map and checkers |
| `MonitorSupervisor.MonitorSupervisor.Spawn` | internal/worker/monitor_checker.go:70-82 | the monitor's live checker becomes the new row's, no other changes |
| `MonitorSupervisor.MonitorSupervisor.Remove` | internal/worker/monitor_checker.go:131-139 | the monitor has no live checker, no other changes |
| `MonitorSupervisor.MonitorSupervisor.Act` | internal/worker/monitor_checker.go:70-139 | every step of the protocol, the rebuild's included, changes the pool as it changes the live checkers |
| `MonitorSupervisor.MonitorSupervisor.Sync` | internal/worker/monitor_checker.go:118-128 | looks the row up in one step and spawns the row found in a later one, with the API and the rebuild moving in between; after a failed or empty lookup nothing follows |
| `MonitorSupervisor.MonitorSupervisor.Dispatch` | internal/worker/monitor_sync.go:37-61 | a well-formed notice is received and carried through as protocol steps; any other message takes none |
| `MonitorSupervisor.MonitorSupervisor.Run` | internal/worker/monitor_checker.go:44-53 | the listing and one spawn per row are protocol steps with the dispatcher moving in between; undisturbed they leave the listed rows running |
| `MonitorSupervisor.MonitorSupervisor.Shutdown` | internal/worker/monitor_checker.go:55-63 | every checker is cancelled, in any order of the map |
| `MonitorSupervisor.RebuildMatchesTable` | internal/worker/monitor_checker.go:44-53 | rebuilding from a full listing gives exactly the table |
| `MonitorUsecase.Merge` | internal/usecase/monitor.go:156-173 | each field is the patch's where given and the old row's otherwise |
| `MonitorUsecase.MonitorUsecase.Create` | internal/usecase/monitor.go:62-98 | once allowed, done if and only if the insert replies Ok; an applied insert is committed, and after an Ok the notice is published, arriving as the publish replies; a refused request changes nothing |
| `MonitorUsecase.MonitorUsecase.Update` | internal/usecase/monitor.go:150-186 | found, owned and valid, done if and only if the write replies Ok; what is committed is the whole row merged into what was read earlier; after an Ok the notice is published; otherwise refused |
| `MonitorUsecase.MonitorUsecase.Delete` | internal/usecase/monitor.go:193-205 | found and owned, done if and only if the delete replies Ok; after an Ok the notice is published; otherwise refused |
| `MonitorStatus.StatusClosedForm` | internal/usecase/check_monitor.go:54-116 | over every error-free history, respawns between checks included: down if and only if the trailing failure run reaches the threshold, else up if any check succeeded, else unknown |
| `MonitorThresholds.CheckerRunsRowRead` | internal/worker/monitor_checker.go:118-128 | over every history the running checker goes by the threshold configured last before its row was read, and by the status stored then |
| `MonitorThresholds.StatusWhileThresholdsChange` | internal/usecase/check_monitor.go:54-116 | over every error-free history, whatever is configured when: down if and only if a check of the current failure run completed the threshold its checker went by, else up if any check succeeded, else unknown; the run has had its notice exactly when down |
| `MonitorStatus.LastFailedIsCounter` | internal/usecase/check_monitor.go:103-115 | "the last F checks all failed" holds if and only if a consecutive-failure counter is at least F |
| `MonitorStatus.OneNoticePerLongRun` | internal/usecase/check_monitor.go:72-88 | over every error-free history, respawns between checks included, down notifications are as many as the maximal failure runs of at least F checks |
| `MonitorStatus.MissedExactlyWhen` | internal/usecase/check_monitor.go:54-116 | over every history, the current failure run has had its notice if and only if a working check of it completed the threshold in a checker that was not deaf (spawned from a row that said down, or whose last success did not get through) |
| `MonitorStatus.MissedForEver` | internal/worker/monitor_checker.go:70-128 | a lost reply to the status update and a respawn keep a first failure run of any length without a notice |
| `MonitorStatus.OneNoticePerRunExactlyWhen` | internal/usecase/check_monitor.go:67-88 | over every history, with changing thresholds, failing calls and respawns overlapping with checks: any two consecutive down notices have a success between them if and only if no stale spawn raised an alarm; the threshold of a checker is the one `MonitorThresholds.CheckerRunsRowRead` names |
| `MonitorStatus.RepeatsExactlyWhen` | internal/worker/monitor_checker.go:70-127 | a step repeats a down notice within a failure run if and only if its checker was spawned after the last notice from a row read before it that did not say down, and this working check fails and completes the threshold |
| `MonitorStatus.CheckerForgetsExactlyWhen` | internal/worker/monitor_checker.go:118-128 | in a failure run that has been announced the checker takes the monitor for not down if and only if it is such a stale spawn |
| `MonitorStatus.StaleSpawnNotifiesTwice` | internal/worker/monitor_checker.go:118-128 | a concrete history with two notices in one failure run |
| `MonitorStatus.AtMostOneNoticePerRun` | internal/usecase/check_monitor.go:67-88 | when every spawned row was read after the latest notice, any two down notices have a success between them, thresholds changing and calls failing as they may |
| `MonitorStatus.MonitorChecker.ListRecent` | internal/repository/postgres/monitor_repo.go:159-182 | the latest checks, newest first, at most the limit |
| `MonitorStatus.MonitorChecker.EvaluateStatus` | internal/usecase/check_monitor.go:98-116 | the query over the history decides as the counter does, by the threshold of the row the checker was spawned from |
| `MonitorStatus.MonitorChecker.Check` | internal/usecase/check_monitor.go:54-91 | check row, status column, in-memory status and notification after every combination of failing calls |
| `AlertCooldown.LoggedSendsAreSpaced` | internal/usecase/evaluate_alert.go:123-143 | consecutive logged sends of a rule and issue are at least the cooldown apart |
| `AlertCooldown.AlertRate` | internal/usecase/evaluate_alert.go:123-143 | a closed interval of length T holds at most T / cooldown + 1 logged sends |
| `AlertCooldown.NotifiesExactlyWhen` | internal/usecase/evaluate_alert.go:123-143 | after any sequence of attempts the next one calls the notifier if and only if its lookup works and no logged send lies less than the cooldown back |
| `AlertCooldown.WorkingAttemptsAreCovered` | internal/usecase/evaluate_alert.go:123-143 | whenever an attempt works, a send has been logged within the cooldown before it, its own included |
| `AlertCooldown.SpacedAttemptsAreLogged` | internal/usecase/evaluate_alert.go:123-143 | working attempts at least a cooldown apart are all logged |
| `AlertEvaluation.DueExactlyWhen` | internal/usecase/evaluate_alert.go:87-113 | a rule is due about an issue if and only if the issue is found and has more events than the threshold, and at least one, within the last windowMinutes * 60 seconds, the lookup works, and no logged send lies less than the cooldown back |
| `AlertEvaluation.FiringRulesName` | internal/usecase/evaluate_alert.go:47-65 | the rules that notify about a new issue are those whose lookup works and which have no logged send within their cooldown |
| `AlertEvaluation.TickIsRecount` | internal/usecase/evaluate_alert.go:71-115 | with no query failures the tick notifies exactly the pairs a recount for every rule would |
| `AlertEvaluation.DuePairsName` | internal/usecase/evaluate_alert.go:87-113 | with failing queries: the pairs of rules some query up to theirs has answered, and no others |
| `AlertEvaluation.CountGroupedByIssueSince` | internal/repository/postgres/event_repo.go:84-108 | every issue's exact count in the window, issues without events absent |
| `AlertEvaluation.EvaluateAlert.NotifyIfNotCooldown` | internal/usecase/evaluate_alert.go:123-143 | notifies if and only if the lookup works and no logged send lies less than the cooldown back; logs a successful send whose row is written, and nothing else; touches no other log |
| `AlertEvaluation.EvaluateAlert.EvaluateNewIssue` | internal/usecase/evaluate_alert.go:47-65 | every rule not cooling down notifies once whatever the others do; all logs after the call |
| `AlertEvaluation.EvaluateAlert.EvaluateRule` | internal/usecase/evaluate_alert.go:99-112 | one rule's due pairs are notified once each and logged, in any map order |
| `AlertEvaluation.EvaluateAlert.FillCache` | internal/usecase/evaluate_alert.go:88-97 | the cache holds exact counts for the keys answered so far; a failed query is not remembered |
| `AlertEvaluation.EvaluateAlert.EvaluateThresholds` | internal/usecase/evaluate_alert.go:71-115 | the due pairs are notified exactly once each, all logs after the tick, and one query per distinct (project, window) |
| `HubProtocol.HubSafety` | internal/delivery/ws/hub.go:29-78 | a client is in its room if and only if its channel is open, no room is empty, no channel is closed twice or sent to after close |
| `HubProtocol.DeliveryInOrder` | internal/delivery/ws/hub.go:59-78 | a client is given, in order and once, exactly the broadcasts to its project during its membership except the missed ones |
| `HubProtocol.MissedOnlyWhenFull` | internal/delivery/ws/hub.go:68-77 | a broadcast is missed only when the 16-slot buffer is full, and nothing given is taken back |
| `HubProtocol.RoomsFollowTheTurns` | internal/delivery/ws/hub.go:29-55 | over every run a client is in a room if and only if it was created for that project and its last turn was its registration |
| `HubProtocol.BroadcastReaches` | internal/delivery/ws/hub.go:59-78 | over every run a broadcast is given to each such client that has one of its sixteen slots free, and to nobody else |
| `Hub.Hub.Register` | internal/delivery/ws/hub.go:29-37 | the client is in its project's room, opened if need be, and nothing else changes |
| `Hub.Hub.Unregister` | internal/delivery/ws/hub.go:39-55 | closes the channel on the first call only and drops an emptied room |
| `Hub.Hub.BroadcastToProject` | internal/delivery/ws/hub.go:59-78 | offers the message to each member once, in any order, and schedules unregister for exactly those that were full |
| `TokenProtocol.AtMostOneActivePerLogin` | internal/usecase/auth.go:153-226 | in every reachable state a login has at most one unrevoked token, and its tokens belong to one user |
| `TokenProtocol.RevokedStaysRevoked` | internal/repository/postgres/refresh_token_repo.go:50-64 | over any run tokens keep owner and expiry and a revoked one stays revoked |
| `TokenProtocol.RedeemedOnlyOnce` | internal/usecase/auth.go:153-175 | a token exchanged once is answered with the reuse error ever after |
| `TokenProtocol.ReuseEndsAllSessions` | internal/usecase/auth.go:162-165 | after a reuse whose revoke-all applied, no token the user had is redeemable in any continuation; other users' tokens are untouched |
| `TokenProtocol.TheftEndsTheStolenSession` | internal/usecase/auth.go:147-165 | when two parties present one token, the session the first obtained ends too |
| `TokenProtocol.LogoutEndsTheSession` | internal/usecase/auth.go:181-196 | after a logout that went through, the token is not redeemable in any continuation; no other token is touched |
| `TokenProtocol.LogoutIsIdempotent` | internal/usecase/auth.go:181-196 | a second logout is answered like the first and changes nothing; the only error is a call that fails |
| `TokenProtocol.RefreshRefusals` | internal/usecase/auth.go:153-175 | why a refresh is refused, exactly, and that only a reuse touches other tokens |
| `TokenProtocol.IssuedForThirtyDays` | internal/usecase/auth.go:200-226 | a token just issued is redeemable for thirty days and not after |
| `AuthUsecase.AuthUsecase.Login` | internal/usecase/auth.go:118-145 | both limiters, account and password are consulted in this order; the token store and answer after each outcome |
| `AuthUsecase.AuthUsecase.Refresh` | internal/usecase/auth.go:153-175 | the token store and answer on every branch, failures included |
| `AuthUsecase.AuthUsecase.Logout` | internal/usecase/auth.go:181-196 | idempotent; revokes the token it knows |
| `AuthUsecase.AuthUsecase.IssueTokens` | internal/usecase/auth.go:200-226 | a token is handed out only if its row is stored, it is then redeemable for precisely 30 days by the given user, and no other token is touched |
| `ProjectCache.BoundedStaleness` | internal/repository/redis/cached_project_repo.go:50-79 | in every run a project served from the cache was in Postgres under that key within the TTL plus the caching request's own delay |
| `ProjectCache.ServedAfterDeleteExactlyWhen` | internal/repository/redis/cached_project_repo.go:50-79 | a deleted key can be served at time t if and only if an answer is cached beyond t or still to be written |
| `ProjectCache.DecoratorDeleteIsFinal` | internal/repository/redis/cached_project_repo.go:93-102 | with nobody reading the key meanwhile, the decorator's delete ends it until it is created again |
| `ProjectCache.ReadInTheGapRevives` | internal/repository/redis/cached_project_repo.go:93-102 | one read between cache delete and row delete brings the key back for a full TTL |
| `ProjectCache.UnwiredDeleteServesUntilExpiry` | cmd/api/main.go:81-95 | a delete through the undecorated repository leaves the key served until precisely its entry's expiry |
| `ProjectCache.AnswersWereCreated` | internal/repository/redis/cached_project_repo.go:62-79 | over every run Postgres answers a key with a project if and only if the project's last turn was its creation under that key |
| `CachedProjectRepository.CachedProjectRepository.GetByAPIKeyHash` | internal/repository/redis/cached_project_repo.go:50-79 | serves the live cached answer or the table's at a moment during the call, caches only the latter, and errors leave the cache as it was |
| `CachedProjectRepository.CachedProjectRepository.Delete` | internal/repository/redis/cached_project_repo.go:93-102 | invalidates before it deletes; a failed lookup or cache delete does not stop the row delete |

## Supporting lemmas

The invariants and measures behind the results above.

- `AlertCooldown.SendsMinusLogs`: successful sends minus log rows are the failed log writes
- `AlertCooldown.SendsPerInterval`: the bound on a closed interval for any log whose entries are a cooldown apart
- `CheckerPool.OpKeepsConsistent`: spawn, remove and cancel keep each uncancelled checker registered under its own id
- `CheckerPool.RemoveRefinesSync`: removing a checker from the pool is one removal from the live map
- `CheckerPool.SpawnRefinesSync`: replacing a checker in the pool is one update of the live map
- `HubProtocol.StepKeepsWellformed`: every step keeps rooms, channels and delivered streams consistent
- `HubProtocol.ReceiveTakesOldest`: the connection takes the oldest message waiting
- `IngestConsumer.ForeignStepsDoNotDisturb`: steps of the producer, the clock and the other loop leave this loop's position and message list alone
- `IngestDrain.RoundLowersPotential`: a round lowers the visits left by at least the number of entries scanned
- `IngestDrain.ScanFindsAll`: a scan below its limit misses no idle pending entry
- `IngestDrain.SmallListDrains`: a list that fits one scan is gone after max + 2 - c rounds, c its lowest delivery count
- `IngestGrouping.DeliveriesAreCounted`: an entry's delivery count is one more than its applied claims
- `IngestSafety.ClaimKeepsReclaimTries`: a retry spends one of the tries the claimed count leaves
- `IngestSafety.ReachableInvariant`: the three invariants (nothing lost, tries bounded, accounts balanced) hold in every reachable state
- `IngestSafety.StepKeepsAccounts`: every step keeps upserts, event rows, orphaned attempts and announcements in balance, key by key
- `IngestSafety.StepKeepsNothingLost`: every step keeps the no-loss invariant, and the stream, tables and DLQ only grow
- `IngestSafety.StepKeepsTries`: every step keeps the link between an entry's delivery count and the tries it has had
- `MonitorStatus.FailuresIsTrailingRun`: the counter is the length of the maximal trailing failure run
- `MonitorStatus.OneMoreCheck`: a check completes a failure run of F checks if and only if it takes the counter to F
- `MonitorStatus.StepKeepsStatusOk`: rows read since a notice say down until something succeeds
- `MonitorSync.ReachableConsistent`: the invariant of `StepKeepsConsistent` holds in every reachable state
- `MonitorSync.StepKeepsConsistent`: every step keeps each monitor right, about to be right, or with a notice still due, unless it was overtaken or a notice lost
- `SlidingWindow.ExpiryIsByFirst`: a stored counter lacks an expiry exactly when its first request did not set one
- `TokenProtocol.LoginOpensFamily`: when a login succeeds, that it opens a family of its own, and that an unknown account and a wrong password are answered alike
- `TokenProtocol.RefreshRedeems`: a refresh succeeds only with a redeemable token, which it spends for a new one of the same family
- `TokenProtocol.StepKeepsFamilies`: login, refresh and logout keep at most one unrevoked token per family

## Left out

- Floating point: the weighted count is compared exactly in integers; float64 rounding is not modelled.
- `RateLimiter.RateLimiter.Allow`: one atomic step on a monotone clock; requests racing inside the pipeline are not modelled. EXPIRE is in whole seconds, as the client sends it; the clocks of server and caller agree.
- Retries inside the Redis client: a call is made once, and a lost reply is a failed call.
- Counter values that do not parse: INCR keeps counters numeric, so the swallowed parse error cannot arise.
- SHA-256, bcrypt, JWT and random generation: the hash is taken as injective, so issues are keyed by the pre-hash string, and generated tokens, ids and API keys as never used before.
- HTTP handlers, routing, pings, e-mail, Slack and WebSocket frames: each is a step that succeeds or fails.
- SQL, JSON encoding, migrations, partitions and retention: tables are maps and sequences with the documented meaning; text is a sequence of characters, so invalid UTF-8 is not covered.
- More than one worker process: the consumer name is fixed in the source, and the model has one `Run` and one reclaim loop; the ingest stream is never trimmed.
- `IngestDrain.PendingListDrains`: assumes what the bound is about: a maximum of at least 0, working reclaim calls, no new deliveries or crashes, and every pending entry idle long enough at each scan.
- Which new-issue rules notify: in the ingest runs an alert is the evaluation of the rules, whatever they come to; `Alerts.dfy` follows it from there.
- Issue status and `List`, event payloads and the event listing: not needed by the protocol.
- `MonitorSync.Converges`: the status column is written by the checker and not part of the comparison; a ListAll that fails ends the worker and with it the run.
- A check interrupted by its cancellation: a check is one step, so a replaced checker has finished its last check before its successor's first.
- Project deletion cascading to monitors: it publishes no monitor event, so those checkers live on until a restart.
- Field validation, ownership and password rules: inputs of the methods that depend on them.
- `MonitorStatus.StatusClosedForm`: check times are strictly increasing, so "latest" is the last element of the history.
- Notification delivery: a failing NotifyMonitorDown counts as a notification, as the source makes no second attempt.
- `AlertEvaluation.EvaluateAlert.EvaluateThresholds`: clock, tables and replies are fixed during a tick; sequential evaluation is assumed, so two evaluations of one rule and issue racing each other are not covered.
- `Hub.Hub`: clients are ids in a map, not objects, so aliasing of client structs is not captured; the goroutine started for a full client is a later unregister step.
- Concurrent refreshes of one token: each refresh is one step, so two refreshes that both find the token unrevoked are not covered.
- `CachedProjectRepository.CachedProjectRepository.GetByAPIKeyHash`: which row answers a lookup is open if two rows shared a key hash; the schema has no unique constraint, but keys are 128-bit random.
- Status page, audit log, slugs, user registration, alert rule and issue CRUD: branch-level facts without a protocol.
