# PulseGraph: a verified model of its delivery, correlation and bookkeeping cores

PulseGraph takes alerts in, correlates them into storms, and delivers one card per storm
through unreliable channels. This project models the parts of it whose correctness spans
many steps, and proves what they keep over every run.

Each component follows the program's own form. What the program computes in place, over
SQLite tables, dictionaries, a heap or a directory tree, is a class whose fields are that
state and whose methods run the same statements; each method is proved to take the state
where a function says, and the theorems are about those functions and about runs of them.

| files | component | main results |
|---|---|---|
| `ChannelHealth`, `BreakerHistory`, `Routing`, `OutboxQueue`, `OutboxRuns`, `OutboxSafety`, `OutboxTheorems`, `OutboxBreakers`, `OutboxRecovery`, `OutboxPolling`, `OutboxFailover`, `OutboxSteps`, `OutboxLeases`, `OutboxWorker` | the outbox worker, circuit breakers and the outage log, with enqueuers and crashes interleaved | an outage kills nothing; a breaker is what its history makes it, and outages are declared exactly at the threshold; an outage declared is failed over, every urgent row once; a poll, row by row; superseded rows are not lost; a lease holds exactly until somebody settles the row |
| `IncidentMachine`, `StormGrouping`, `StormStore`, `EngineRuns`, `EngineSafety`, `EngineTheorems`, `EngineMerges`, `EngineStatuses`, `EngineRecords`, `EngineWriter` | alert ingest, storm grouping, callbacks, deadlines, silence sweeps | incremental groups are the connected components of all strong neighbours found; stored facts are never stale; merges keep the oldest group and its anchor; each status is what the fired triggers make of it; acknowledging callbacks find nothing to acknowledge; callbacks apply once |
| `PatchPlan`, `PatchWorkspace` | planning a patch and committing it to a directory tree | which proposals are accepted, exactly; file-to-directory swaps never hit an unsafe target; plans can be undone |
| `TimerWheel`, `AdaptiveEwma`, `QuietDeadlines` | the lazy-deletion heap, the adaptive window, the bounded deferral | the wheel is a map; the loop is the weighted mean and variance; the budget only cuts predictions short; no storm defers itself |
| `SseBroker` | the resumable event stream | gap-free delivery, exact resume, what a poll delivers and when it is empty |
| `InstallationState`, `InstallationRuns`, `InstallationOrder`, `InstallationStore` | GitHub installations under out-of-order webhooks and two-phase syncs | no access without an active installation; suspensions last until lifted; syncs commit exactly if undisturbed; exactly where delivery order decides |
| `CoOccurrence`, `RootCauseRanker` | decayed counters and cause ranking | counters are decayed sums exactly if their rounds came in order; shared counts are bounded; exactly when there is a verdict, and that order does not matter |
| `TreeWalk` | the bounded walk over an untrusted Git object graph | done exactly where the tree flattens within limits; what a flattening holds; cycles never flatten |
| `Ledger` | the hash-chained ledger and its verifier | accepted exactly if times are UTC in whole milliseconds; the last hash fixes every row |

`Basics` holds optional values and extrema of sets, `RealArithmetic` products and powers of reals.

## How the program is read

- A section that holds the write lock, or a transaction, is one atomic step. Clocks, UUIDs,
  provider answers, probe results and lease expiries are inputs of the steps.
- Incident, group and object ids are natural numbers, ordered as their texts are. Floats
  are reals; the decay is `q` to the elapsed milliseconds with `0 < q <= 1`; a square root
  is any function whose value is a root where that matters. Times are whole milliseconds.
- `SELECT ... ORDER BY ... LIMIT` is a method that picks the first of what is left until it
  has enough. Where the program walks a set in some sorted order that the result does not
  depend on, the model walks it in any order.
- The outbox runs are those of one worker, with any number of concurrent enqueuers and
  redirects, and a crash between any two steps. Leases are proved separately for any number
  of workers (`OutboxLeases.LeasesExclude`, `OutboxLeases.LateHolderGivesLeaseAway`).
- Storm runs interleave every writer of incidents: alert ingest, critical bypass, quiet
  deadlines and external actions. The silence sweep goes through the external action.

Where code and documentation disagree the model follows the code:

- `src/outbox/failure_policy.py:44-48` says only message-fatal verdicts are charged to a
  row's attempts; nothing calls it, and the worker charges transient ones.
- `src/outbox/recovery.py:42-44` says failed-over rows are left alone by coalescing; the
  query does not leave them out.
- A row of an unknown channel would be dead-lettered (`src/outbox/worker.py:303-348`), but
  only rows of known channels are ever claimed.
- The README and `tests/test_inbound_reconcile.py:160-178` have an acknowledgement from
  PagerDuty or Slack reach its incident. One is applied exactly if it is new and finds the
  incident OPEN, and no writer ever commits an OPEN incident, so in every run none of them changes
  anything (`EngineStatuses.AcknowledgedExactlyIfOpen`, `EngineStatuses.AcknowledgementsChangeNothing`);
  the test puts the OPEN row there itself.
- `src/stream/sse_broker.py:59-62` numbers a snapshot below the ids of the newest row it
  covers, so a cursor at a round number skips that row's ids
  (`SseBroker.RoundCursorsCoverTheirRow` says for which cursors exactly).

## Properties that hold under a condition

- Settling a row does not look at `locked_by` (`src/outbox/worker.py:486-562`), so until its
  lease ends a row is its holder's exactly as long as nobody settles it, an earlier holder
  whose lease had run out included: such a late holder gives its successor's lease away, and
  a third worker is handed the row (`OutboxLeases.LeasesExclude`,
  `OutboxLeases.LateHolderGivesLeaseAway`). A row handed to nobody else before is safe
  (`OutboxLeases.FirstLeaseIsSafe`).
- With a limit of one row a subscriber in the middle of a row can be stuck
  (`SseBroker.EmptyPollIsExact`, `SseBroker.StallsAtLimitOne`).
- The verifier rejects rows whose time was not UTC in whole milliseconds
  (`Ledger.WrittenVerifiesIfExact`, `Ledger.RefusedTimes`).
- A deadline can be now itself, exactly if nothing is known of the cadence, the window's
  ceiling is below one millisecond, and the budget has not run out
  (`AdaptiveEwma.PredictionIsAhead`, `QuietDeadlines.RepeatDeadlinesAreBounded`).
- Of a batch of webhooks the newest has the last word in every order exactly if no other
  one that applies leaves a status the newest's action cannot lift: always for a deletion,
  never where an older deletion meets a newer event that is none
  (`InstallationOrder.NewestWins`, `InstallationOrder.OrderCanMatter`).
- Which repositories end up selected can depend on the order even where the status does
  not: exactly if something that may come first changes a repository the newest does not name
  (`InstallationOrder.SelectionIgnoresOrder`, `InstallationOrder.SelectionCanMatter`).
- A decayed counter is the sum of its observations exactly if its own rounds came in time
  order; out of order it falls behind, and a late round can break the bound on what is shared
  (`CoOccurrence.CounterIsSum`, `CoOccurrence.OutOfOrderCanUndercount`). The condition on the
  sums is exact; that on the bounds, order of the rounds they rest on, is sufficient and not
  exact (`CoOccurrence.SharedIsBounded`): a bound can hold by chance after a late round.
- A create that needs the place of a file deleted later in the same proposal is refused
  (`PatchPlan.AcceptanceIsExact`, `PatchPlan.SwapNeedsDeletionFirst`).

## Model

| member | source | states |
|---|---|---|
| OutboxTheorems.OutageKillsNothing | src/outbox/worker.py:352-394 | at every moment of every run attempts plus what a crash lost is the number of TRANSIENT verdicts, a pending row has budget left, a dead row heard MESSAGE_FATAL or its whole budget of TRANSIENT ones, and CHANNEL_DOWN alone never charges or kills |
| OutboxTheorems.ChargesAreExact | src/outbox/worker.py:522-549 | without crashes, between steps, attempts equals the TRANSIENT verdicts heard |
| OutboxTheorems.OneStep | src/outbox/worker.py:352-562 | no step drops a row or touches a finished one, and only settling a row's own verdict, never a CHANNEL_DOWN one, charges or kills it |
| OutboxTheorems.FinishedRowsStay | src/outbox/worker.py:486-562 | a sent, dead or superseded row never changes again in any run |
| OutboxTheorems.HeirIsLive | src/outbox/recovery.py:60-96 | following superseded_by climbs strictly to a row of the same channel that is not superseded |
| OutboxTheorems.SupersededIsNotLost | src/outbox/recovery.py:39-98 | over runs, every superseded row's chain ends in a pending, sent or dead row of its channel |
| OutboxTheorems.StandInsAreWellFounded | src/outbox/worker.py:396-482 | a stand-in names an older, original, urgent row of another channel and is never failed over again |
| OutboxTheorems.OutagesMatchBreakers | src/outbox/channel_health.py:141-302 | a channel has exactly one unrecovered outage if it is OPEN or HALF_OPEN and none if CLOSED, and CLOSED means fewer failures than the threshold |
| OutboxTheorems.ProbeStepsNeverFall | src/outbox/channel_health.py:257-302 | within one outage the probe step never falls |
| OutboxTheorems.BreakerIgnoresRowFaults | src/outbox/channel_health.py:165-255 | striking all transient and message-fatal failures from a channel's history leaves its breaker as it is |
| BreakerHistory.BreakerIsItsHistory | src/outbox/channel_health.py:165-302 | a breaker is read off its history: CLOSED while the CHANNEL_DOWN verdicts since the last delivery are fewer than the threshold, on trial if the last word was a healthy probe; failures, probe step, down-since and next probe are the counts and times of what was heard since |
| BreakerHistory.ProbeDelayDoubles | src/outbox/channel_health.py:86-88 | the wait for a probe doubles from the base up to the ceiling |
| OutboxBreakers.BreakersCount | src/outbox/channel_health.py:141-302 | at every moment of every run each breaker is what its channel was told since its last delivery |
| OutboxBreakers.OutagesAreDeclaredAtTheThreshold | src/outbox/channel_health.py:192-240 | in every run an outage is declared by exactly the CHANNEL_DOWN verdict that makes as many since the last delivery as the threshold asks, with the rows then waiting |
| OutboxBreakers.OutageLogIsExact | src/outbox/channel_health.py:304-350 | in every run an open outage recovers with its channel's next delivery, counts failed probes and rows failed over, and changes in no other way |
| OutboxSteps.OutagesAreFailedOver | src/outbox/worker.py:352-394 | unless the worker crashes first, a declared outage has been failed over or is what the worker is about to fail over |
| OutboxSteps.AnswersSettleTheirRow | src/outbox/worker.py:352-394 | the row in hand is settled by its own answer with the attempts read at the claim, and no other row changes |
| OutboxSteps.ParkedUntilTheProbe | src/outbox/worker.py:352-394 | a row is parked until the probe its channel's breaker waits for |
| OutboxSteps.AcceptedRowsAreSent | src/outbox/worker.py:303-350 | unless the worker crashes in between, a row its provider accepted is marked sent and stays so |
| OutboxSteps.EveryRowHandedOutIsSettled | src/outbox/worker.py:181-228 | unless the worker crashes, it settles every row it was handed, whatever became of those before |
| OutboxSteps.EveryDueChannelIsProbed | src/outbox/worker.py:115-159 | unless the worker crashes, every channel found due is probed before it turns to the queue |
| ChannelHealth.OnlyChannelFailuresCount | src/outbox/channel_health.py:165-255 | replaying a history with the row faults struck out gives the same breaker |
| OutboxSafety.StepKeeps | src/outbox/worker.py:181-228 | every step of worker, engine or crash keeps the invariant on links, budgets, rows in hand and breakers |
| OutboxSafety.RunKeeps | src/outbox/worker.py:67-562 | the invariant holds at every moment of every run |
| OutboxRecovery.CoalesceKeepsNewest | src/outbox/recovery.py:39-98 | of an incident's pending rows only the newest stays, with the latest fallback marker of them all; the others name it, and nothing else changes |
| OutboxRecovery.CoalesceIsIdempotent | src/outbox/recovery.py:39-98 | coalescing twice is coalescing once |
| OutboxRecovery.CoalesceIsLocal | src/outbox/recovery.py:47-54 | coalescing one channel leaves every row of every other channel as it is |
| OutboxPolling.CoalesceIsExact | src/outbox/recovery.py:39-98 | each row of the channel: untouched if not pending, superseded by its incident's newest pending row, or being that one and carrying the marker of the newest that has one; no other channel's row changes |
| OutboxRecovery.TrimRespectsAllowance | src/outbox/worker.py:181-228 | of a half-open channel exactly the allowance is dispatched, or all if there are fewer |
| OutboxRecovery.TrimSparesHealthyChannels | src/outbox/worker.py:181-228 | rows of channels not on trial are all dispatched |
| OutboxRecovery.InOrderIsForemost | src/outbox/worker.py:230-280 | a claim takes a front of the queue, in order, and as much as the limit allows |
| OutboxPolling.ClaimIsExact | src/outbox/worker.py:230-280 | a row is leased exactly if it is pending, due, on a channel that is up, in nobody's hands, and fewer such rows than the limit go before it by priority and age |
| OutboxPolling.TrimKeepsTheFirst | src/outbox/worker.py:205-228 | of a channel on trial the rows with fewer than the allowance of their own ahead are kept, in order |
| OutboxPolling.PollIsExact | src/outbox/worker.py:181-228 | with a channel up, a poll coalesces those that are, leases the first ready rows and hands out in order what the lease holds within the allowances; with none up it changes nothing |
| OutboxLeases.LeasesExclude | src/outbox/worker.py:230-280 | with any number of workers claiming, settling, coalescing and failing over among enqueues and redirects, until its lease ends a row keeps it exactly as long as nobody settles the row, by whatever lease; and while it does, no other batch holds the row and nobody else is newly handed it |
| OutboxLeases.FirstLeaseIsSafe | src/outbox/worker.py:230-280 | a row handed to nobody else before keeps its lease until the lease ends or its holder settles it |
| OutboxLeases.LateHolderGivesLeaseAway | src/outbox/worker.py:486-562 | a holder whose lease had run out parks the row after its successor claimed it, and a third worker is handed the row while the successor's lease runs |
| OutboxFailover.FailOverIsExact | src/outbox/worker.py:396-482 | of a channel with a fallback that is up, every queued original of priority 0 or 1 is marked with it and has exactly one stand-in there, numbered in queue order; no other row changes and the open outage counts them; without such a fallback nothing changes |
| OutboxFailover.FallbackIsSelected | src/outbox/routing.py:66-79 | chat fails over to paging and paging to chat, else to mail, mail to nothing; an update becomes a page only as a new one |
| OutboxWorker.Worker.RecordSuccess | src/outbox/channel_health.py:141-163 | closes the breaker, recovers the channel's current outage, and says whether it had been down |
| OutboxWorker.Worker.RecordFailure | src/outbox/channel_health.py:165-255 | the breaker and outage log of the specification the theorems are about, and whether this failure declared the outage |
| OutboxWorker.Worker.RecordProbeResult | src/outbox/channel_health.py:257-302 | a healthy probe puts the channel on trial, a failed one backs off |
| OutboxWorker.Worker.CoalescePending | src/outbox/recovery.py:39-98 | the loop over groups gives the coalesced table, and its count is the drop in pending rows |
| OutboxWorker.Worker.PrepareChannelBacklog | src/outbox/worker.py:161-177 | coalesces the channel and queues the digest if an outage is on record |
| OutboxWorker.Worker.Claim | src/outbox/worker.py:230-280 | leases exactly the front of the claimable queue and returns the batch the lease holds |
| OutboxWorker.Worker.Trim | src/outbox/worker.py:181-228 | the loop over a half-open channel's rows keeps the allowance |
| OutboxWorker.Worker.PollOnce | src/outbox/worker.py:181-228 | coalesces, claims and trims as the runs' poll step does |
| OutboxLeases.SettlingGivesBack | src/outbox/worker.py:486-562 | settling a row touches that row alone and gives its lease back; only a transient failure is charged, and any worker may claim the row again exactly if it still waits, from the time it was put off to |
| OutboxLeases.SettledRowIs | src/outbox/worker.py:486-562 | a settled row field by field: sent, dead, parked until the probe or a second, or put off by the provider's hint or the backoff, dead where the budget is spent |
| OutboxLeases.BackoffDoubles | src/outbox/worker.py:62-64 | the backoff doubles from a second up to five minutes |
| OutboxSteps.BacklogIsExact | src/outbox/worker.py:161-177 | a recovered channel is coalesced, and exactly if an outage of it is on record the digest goes to the front |
| OutboxSteps.RecoveriesArePrepared | src/outbox/worker.py:115-159 | a channel probed healthy has its backlog prepared, one still down keeps its queue |
| OutboxSteps.EnqueueIsExact | src/engine/db_adapter.py:266-300 | an enqueue adds one fresh row, due at once, and changes no other |
| OutboxSteps.RedirectIsExact | src/graph/storm_grouping.py:364-421 | a member's waiting rows become updates of the anchor's card, and exactly if its card was posted to chat one more update of its own is queued |
| OutboxWorker.Worker.FailoverPending | src/outbox/worker.py:396-482 | moves the urgent rows one by one, counts them, and records the count with the outage |
| StormGrouping.OutboundTakesOut | src/graph/storm_grouping.py:223-249 | a member's outbound weight counts each of its edges into the group once, in whatever order they are summed |
| StormGrouping.DerivedInside | src/graph/storm_grouping.py:174-220 | a group's facts depend on nothing outside the group |
| StormGrouping.RankedRoot | src/graph/storm_grouping.py:223-249 | with an edge between members the root has one, and of the members with one the greatest sum into the group, the lesser id at a tie; without one it is the first to have fired |
| StormGrouping.NeighboursAreStrong | src/graph/storm_grouping.py:72-114 | neighbours share the scope, are not resolved and weigh at least 1.5 in a direction; none such is left out unless there are 25 at least as strong |
| StormStore.Store.RankGroupRoot | src/graph/storm_grouping.py:223-249 | the loop finds the member with the greatest internal outbound weight, or the earliest without any |
| StormStore.Store.StrongNeighbours | src/graph/storm_grouping.py:72-114 | the strongest eligible incidents, all of them or the limit |
| StormStore.Store.OldestGroup | src/graph/storm_grouping.py:134-152 | the oldest of the groups that have a row |
| StormStore.Store.RefreshGroup | src/graph/storm_grouping.py:174-220 | drops an empty group, else makes its row the function of its members and internal edges |
| StormStore.Store.MergeGroups | src/graph/storm_grouping.py:155-171 | the absorbed groups' members move over and their rows go |
| StormStore.Store.Unite | src/graph/storm_grouping.py:274-310 | puts an incident and its neighbours in the oldest group any is in, or in a new one anchored by the earliest |
| StormStore.Store.AssignGroup | src/graph/storm_grouping.py:252-320 | the graph after grouping is the one the runs' alert step computes |
| StormStore.Store.RefreshGroupForMember | src/graph/storm_grouping.py:323-361 | refreshes exactly the group the incident is in |
| EngineTheorems.StormsAreTheClosure | src/graph/storm_grouping.py:252-320 | in every run two incidents share a group, or are one, exactly if the strong neighbours of the alerts so far connect them |
| EngineTheorems.GroupFactsAreCurrent | src/graph/storm_grouping.py:174-249 | after every committed step of any writer each group row says what its members do now: the count, the worst severity, open exactly if one is not resolved, and as root and title the member that leads the others most |
| EngineTheorems.AnchorsAreMembers | src/graph/storm_grouping.py:278-296 | every anchor is a member of its group and no incident anchors two |
| EngineMerges.MergesKeepTheOldest | src/graph/storm_grouping.py:134-171 | in every step a group that takes others in is the oldest of all it takes in and keeps its anchor, scope and age, the others' rows go, and a new group takes in none |
| EngineMerges.OneHeirEach | src/graph/storm_grouping.py:155-171 | in every step all members of a group go to one group and no other: to itself if its row stays, else to an older one that was there and keeps its card |
| EngineMerges.NewStormsAreAnchoredByTheFirst | src/graph/storm_grouping.py:274-310 | a group only starts with an alert whose incident and neighbours have none, holds exactly these, and is anchored by the first of them to have fired |
| EngineMerges.GroupsArePassedOn | src/graph/storm_grouping.py:134-171 | over any stretch of a run a group's members stay together, passed from step to step to the same or an older existing group |
| EngineMerges.AnchorsStay | src/graph/storm_grouping.py:274-310 | as long as a group has its row, its anchor, scope and age are the same and no member leaves |
| EngineStatuses.StatusWalksTheTable | src/engine/process_event.py:212-220 | over any stretch of a run an incident's status is the one the transition table gives for exactly the triggers each writer fires at it: resolve, acknowledge, reopen then acknowledge, quiet deadline, or an unreplayed action's own |
| EngineStatuses.StatusBeginsAndWalks | src/engine/process_event.py:206-209 | an incident begins with its first alert or bypass, acknowledged or, if resolved, resolved, and its status follows from there by the triggers fired since |
| EngineStatuses.OpenIsNeverCommitted | src/engine/process_event.py:206-220 | after no step of any run is an incident OPEN |
| EngineStatuses.AcknowledgedExactlyIfOpen | src/inbound/reconcile.py:285-316 | an acknowledging action is applied exactly if it is new and its incident is OPEN |
| EngineStatuses.AcknowledgementsChangeNothing | src/inbound/reconcile.py:285-316 | in every run an acknowledging action changes no incident, group or ledger row; a new one is recorded as ignored |
| EngineStatuses.OnlyDeadlinesQuiesce | src/engine/timer_worker.py:222-238 | an incident turns quiescent exactly where a deadline finds it acknowledged |
| EngineStatuses.QuiescentUntilResolved | src/engine/incident_machine.py:22-30 | a quiescent incident stays so exactly until a resolved alert or an unreplayed resolving action, which leaves it resolved |
| EngineStatuses.OnlyFiringReopens | src/engine/process_event.py:212-220 | a resolved incident stays so exactly until an alert for it fires, which leaves it acknowledged |
| EngineTheorems.CallbacksApplyOnce | src/inbound/reconcile.py:285-366 | the ledger rows of external actions are one for one the inbound ids recorded as applied, whatever is replayed |
| EngineTheorems.LedgerTellsTheStatus | src/engine/db_adapter.py:229-264 | the newest ledger row about an incident records its status |
| EngineRecords.LedgerRecordsEveryStep | src/engine/db_adapter.py:229-264 | each alert adds a ledger row with the status it leaves; a deadline or an action adds one exactly if it moves its incident; a callback is noted once, as applied exactly if it did |
| EngineRecords.RowsAreTheirAlerts | src/engine/db_adapter.py:139-215 | in every run an incident's scope and first time are its first alert's, its title and severity its last one's |
| EngineWriter.Writer.Ingest | src/engine/process_event.py:385-454 | upserting, appending to the ledger, and grouping or else refreshing is the runs' alert step, with the neighbours grouping found |
| EngineWriter.Writer.Group | src/graph/storm_grouping.py:252-320 | with strong neighbours the incident is assigned, without any its own group is refreshed |
| EngineWriter.Writer.QuietDeadline | src/engine/timer_worker.py:222-238 | persists the transition if the table has one, and otherwise changes nothing |
| EngineWriter.Writer.ApplyExternalAction | src/inbound/reconcile.py:285-366 | applies a callback at most once, records what became of it, and refreshes the incident's storm |
| EngineSafety.StepKeeps | src/engine/process_event.py:385-454 | every writer's step keeps groups whole and current, storms the closure of links, and the ledger in step with inbound events |
| EngineSafety.RunKeeps | src/engine/process_event.py:385-454 | the same holds at every moment of every run |
| PatchPlan.TotalTakesOut | src/github_integration/workspace.py:424-442 | the total size does not depend on the order files are counted in |
| PatchPlan.AcceptedPlansOverlay | src/github_integration/workspace.py:355-422 | an accepted plan changes each named path to the content proposed, or removes it if that is a delete, records the base's content before and the result's after, and changes no other path |
| PatchPlan.ResultNeverCollides | src/github_integration/workspace.py:500-507 | from a collision-free base the final collision check never refuses |
| PatchPlan.AcceptanceIsExact | src/github_integration/workspace.py:355-422 | a proposal is accepted exactly if its paths differ, every change is right about the base, the result is valid, and nothing is created before a deletion that makes way for it |
| PatchPlan.RightMeans | src/github_integration/workspace.py:385-408 | what a create, an update and a delete each require of the base file, the pin and the content |
| PatchPlan.ConflictMeans | src/github_integration/workspace.py:355-422 | a refusal is a conflict exactly if something stands where a file is created, a file to change is not there, or is not the pinned one |
| PatchPlan.FirstFaultIsReported | src/github_integration/workspace.py:355-422 | a proposal that fails on a change fails with the first fault in order |
| PatchPlan.SwapNeedsDeletionFirst | src/github_integration/workspace.py:490-497 | replacing a file by a directory is refused if the create comes first and accepted if the deletion does |
| PatchPlan.UndoRestores | src/github_integration/workspace.py:355-422 | the inverse of an accepted plan is accepted for its result, within the size limit, and gives the base again |
| PatchWorkspace.NeverUnsafe | src/github_integration/workspace.py:538-582 | with the blocking files gone, no target is a directory and no parent of one a file |
| PatchWorkspace.Workspace.PruneEmptyDirectories | src/github_integration/workspace.py:632-644 | one bottom-up walk leaves exactly the directories files need |
| PatchWorkspace.Workspace.MaterializeTarget | src/github_integration/workspace.py:584-599 | succeeds exactly if the target is no directory and no parent is a file, and then adds exactly the parents |
| PatchWorkspace.Workspace.WriteResultFiles | src/github_integration/workspace.py:538-582 | from exactly the current files to exactly the resulting files and their directories, never meeting an unsafe target |
| PatchWorkspace.Workspace.ValidateFileSet | src/github_integration/workspace.py:424-442 | accepts exactly the file sets within the limits and without collisions |
| PatchWorkspace.Workspace.NoCollisions | src/github_integration/workspace.py:500-507 | finds a file standing above another if there is one |
| PatchWorkspace.Workspace.PlanChanges | src/github_integration/workspace.py:355-422 | the loop gives the plan or the first refusal of the specification |
| PatchWorkspace.Workspace.Apply | src/github_integration/workspace.py:278-334 | all or nothing, and the workspace stays readable and exact |
| TimerWheel.Wheel.Schedule | src/engine/timer_wheel.py:35-48 | sets one deadline of the map, or refuses a negative one |
| TimerWheel.Wheel.Cancel | src/engine/timer_wheel.py:50-54 | removes one deadline of the map and says whether it was there |
| TimerWheel.Wheel.PopDue | src/engine/timer_wheel.py:56-67 | returns exactly the deadlines due, each once, earliest first, and leaves the rest |
| TimerWheel.Wheel.NextDeadline | src/engine/timer_wheel.py:69-78 | the least deadline of the map, which stays as it is |
| TimerWheel.Wheel.Len | src/engine/timer_wheel.py:80-82 | the number of deadlines |
| TimerWheel.DueIsCounted | src/engine/timer_wheel.py:56-67 | what a poll announces is as many as are due |
| TimerWheel.NothingIsLost | src/engine/timer_wheel.py:56-67 | after a poll every deadline was announced or is still scheduled, never both |
| TimerWheel.PollsCompose | src/engine/timer_wheel.py:56-67 | two polls announce what one later poll would, in an order it could use |
| AdaptiveEwma.LoopIsTheClosedForm | src/engine/adaptive_ewma.py:52-64 | mean and variance are the weighted ones of the whole history, with weights that sum to one |
| AdaptiveEwma.EwmaStaysInRange | src/engine/adaptive_ewma.py:52-64 | the mean lies between the extremes and the variance in a quarter of their distance squared |
| AdaptiveEwma.MeanAndVarianceBounded | src/engine/adaptive_ewma.py:57-64 | the variance is at most the product of the mean's distances to the extremes |
| AdaptiveEwma.Smooth | src/engine/adaptive_ewma.py:52-64 | the loop computes the recurrence |
| AdaptiveEwma.CalculateQuietDeadline | src/engine/adaptive_ewma.py:20-73 | the prediction, or the refusal of a negative gap or ceiling |
| AdaptiveEwma.WindowFollowsTheGaps | src/engine/adaptive_ewma.py:66-67 | gaps between two bounds give a window between them but for half their distance, under the ceiling |
| AdaptiveEwma.PredictionIsExact | src/engine/adaptive_ewma.py:20-73 | with a history the window is the weighted mean and one deviation, the newest of n gaps weighing 2 in n + 1, cut off at the ceiling, rounded up and at least a millisecond |
| AdaptiveEwma.FirstPredictionIsExact | src/engine/adaptive_ewma.py:20-73 | without a history the window is five seconds or the ceiling if less |
| AdaptiveEwma.RefusedExactly | src/engine/adaptive_ewma.py:13-18 | refused exactly for a negative gap or a ceiling that is not positive |
| AdaptiveEwma.PredictionIsAhead | src/engine/adaptive_ewma.py:44-67 | a deadline is later than now exactly if there is history or the ceiling is at least 1 ms, and within the ceiling |
| QuietDeadlines.RepeatDeadlinesAreBounded | src/engine/process_event.py:100-120 | a repeat alert's deadline is at most the greater of the end of the budget and now + 1, whatever the settings, and exactly when it is later than now |
| QuietDeadlines.RepeatDeadlinesFollowThePrediction | src/engine/process_event.py:100-120 | a repeat alert's deadline is the predicted one exactly if that lies in the budget or there is none, and else the later of the budget's end and one tick past now |
| QuietDeadlines.AlertsArmDeadlines | src/engine/process_event.py:223-382 | an alert puts its gap on record and, unless it resolves, schedules its deadline in place of the incident's last |
| QuietDeadlines.DeadlinesPass | src/engine/timer_worker.py:222-238 | apart from alerts a deadline goes only by being announced in a poll or forgotten in a restart |
| QuietDeadlines.FirstDeadlinesAreBounded | src/engine/process_event.py:272-283 | a first alert's deadline is at most 5 s away, later than now exactly if the ceiling is at least 1 ms, and within the budget if the window fits in it |
| QuietDeadlines.NoStormDefersItself | src/engine/timer_worker.py:240-250 | a poll at or after both the end of the budget and one tick past the arming alert announces the incident, if still scheduled |
| QuietDeadlines.BudgetsStartOnce | src/engine/db_adapter.py:139-200 | when an incident was first taken in never moves |
| SseBroker.ReadDeltaEvents | src/stream/sse_broker.py:138-201 | the loop returns the pending ids of the first rows the limit allows |
| SseBroker.PollIsFront | src/stream/sse_broker.py:138-201 | a poll is a front of what is pending and leaves all later rows |
| SseBroker.PollIsExact | src/stream/sse_broker.py:138-201 | a poll delivers, in order, exactly the four ids of each present row from the cursor's on, over as many rows as the limit, that lie above the cursor |
| SseBroker.ResumeIsExact | src/stream/sse_broker.py:146-147 | resuming from any pending id, even in the middle of a row, gives what follows it |
| SseBroker.EmptyPollIsExact | src/stream/sse_broker.py:138-201 | a poll is empty exactly if nothing is pending, or the limit is zero, or it is one and the cursor at the end of a row |
| SseBroker.StallsAtLimitOne | src/stream/sse_broker.py:138-201 | at cursor 14 of two rows, polls of one row stay empty with the second row's ids pending |
| SseBroker.StreamIsGapFree | src/stream/sse_broker.py:204-226 | however polls and appends interleave, what was sent and what is pending is what was pending from the start on, increasing and without gap, and any id sent resumes exactly |
| SseBroker.SilenceMeansCaughtUp | src/stream/sse_broker.py:216-223 | with a limit of two or more an empty poll means everything was sent |
| SseBroker.RoundCursorsCoverTheirRow | src/stream/sse_broker.py:59-62 | all ids above a cursor are pending exactly if it is not the round number of a row in the ledger |
| SseBroker.SnapshotCatchesUp | src/stream/sse_broker.py:210-214 | after a snapshot nothing is pending |
| InstallationState.WebhooksAreVersioned | src/github_integration/store.py:112-166 | an applied webhook raises the version strictly and the revision by one; any other changes nothing |
| InstallationState.AccessNeedsReadOnly | src/github_integration/store.py:95-109 | an applied webhook leaves its installation active exactly if it is live, unsuspended, with selected repositories and read-only permissions, and otherwise no repository selected in it |
| InstallationState.StoredStatusIsExact | src/github_integration/store.py:96-109 | a webhook that takes effect leaves DELETED exactly for a deletion, else SUSPENDED exactly if suspended, else SELECTION_REQUIRED exactly for all repositories, else MISCONFIGURED exactly without the read-only permissions, and ACTIVE otherwise |
| InstallationState.TakesEffectExactly | src/github_integration/store.py:270-296 | which webhooks take effect: new deliveries of a handled kind, let through by the lifecycle, and newer by time and then by how much they revoke |
| InstallationState.RepositoriesAreExact | src/github_integration/router.py:528-583 | the added repositories of an active installation are selected less the removed ones, all of an inactive one's are deselected, and no other changes |
| InstallationState.DeliveriesAreRecorded | src/github_integration/router.py:528-540 | every delivery is recorded, but for repository events of a kind that is refused |
| InstallationState.SnapshotIsExact | src/github_integration/router.py:706-750 | a refresh commits exactly if the repository is selected in an active installation and the one read before is active |
| InstallationState.SyncIsAuthoritative | src/github_integration/store.py:482-517 | a sync leaves exactly the listed repositories selected in its installation |
| InstallationState.SnapshottedKeeps | src/github_integration/router.py:706-750 | the snapshot's metadata refresh never leaves a repository selected under an installation that is not active |
| InstallationRuns.NoAccessWithoutActive | src/github_integration/store.py:241-517 | whatever the order of webhooks, syncs and snapshots, only active installations have selected repositories |
| InstallationRuns.RevisionsCount | src/github_integration/store.py:112-166 | the revision counts the webhooks applied to the installation |
| InstallationRuns.VersionsRise | src/github_integration/store.py:112-166 | versions rise lexicographically, strictly with every webhook applied |
| InstallationRuns.SyncCommitsIfUndisturbed | src/github_integration/store.py:482-517 | a sync commits exactly if no webhook was applied to its installation since it was read |
| InstallationRuns.DeletedStaysDeleted | src/github_integration/store.py:276-285 | a deleted installation stays deleted and never has a selected repository again |
| InstallationRuns.SuspensionsEndExplicitly | src/github_integration/store.py:286-297 | a suspended installation changes only through a newer suspend, unsuspend or deleted webhook |
| InstallationRuns.SuspendedStaysSuspended | src/github_integration/store.py:279-287 | once a webhook that reports the installation suspended took effect, its row stays, with no repository selected, until a suspend, unsuspend or deleted webhook comes |
| InstallationOrder.NewestWins | src/github_integration/store.py:276-297 | for any batch with a newest webhook, from any state: it has the last word in every order exactly if the row is already as it would leave it, or it applies and no other that applies leaves a status its action cannot lift |
| InstallationOrder.StatusIgnoresOrder | src/github_integration/store.py:276-297 | where the newest applies, all orders end in one version and status exactly under that condition |
| InstallationOrder.SelectionIgnoresOrder | src/github_integration/store.py:425-479 | where the newest always has the last word, all orders select the same repositories exactly if it leaves no access, or whatever may take effect before it changes only repositories it names itself |
| InstallationOrder.RevisionIgnoresOrder | src/github_integration/store.py:112-166 | and all orders end in one revision exactly if no other webhook of the batch applies |
| InstallationOrder.OrderCanMatter | src/github_integration/store.py:276-297 | an older deletion delivered after a newer event is ignored, delivered before it is final |
| InstallationOrder.SelectionCanMatter | src/github_integration/store.py:450-467 | of two grants the older is lost if it comes second: the selection and the revision differ though the status does not |
| InstallationOrder.DenyWins | src/github_integration/store.py:81-92 | of two webhooks with one timestamp the more revoking stands in either order; for one that neither deletes nor suspends exactly if the other does not suspend |
| InstallationStore.Tables.ObserveEvent | src/github_integration/store.py:112-166 | writes the version row if the event is newer, and returns the revision |
| InstallationStore.Tables.UpsertInstallation | src/github_integration/store.py:241-344 | applies the webhook or leaves everything, and says which |
| InstallationStore.Tables.Receive | src/github_integration/router.py:530-572 | the webhook transaction of both event kinds, once per delivery id |
| InstallationStore.Tables.ReplaceRepositories | src/github_integration/store.py:482-517 | commits the sync or refuses it and changes nothing |
| InstallationStore.Tables.RefreshForSnapshot | src/github_integration/router.py:706-750 | checks before and after the refresh and rolls back if either fails |
| CoOccurrence.CountersAreSums | src/graph/observe_incident.py:57-138 | the same of every node, edge and scope counter after any history of rounds |
| CoOccurrence.CounterIsSum | src/graph/edge_decay.py:23-73 | a counter is at most the decayed sum of its own observations, and that sum exactly if the rounds it counted came in time order, or nothing decays |
| CoOccurrence.SharedIsBounded | src/graph/observe_incident.py:193-226 | what two incidents share in both directions is at most what one was observed if its own rounds came in order, and that at most the scope's rounds if all did |
| CoOccurrence.OneDirectionARound | src/graph/observe_incident.py:193-202 | a round counts a pair in one direction and only if both take part |
| CoOccurrence.EdgesMean | src/graph/observe_incident.py:193-226 | a round counts an edge from whichever of the pair fired first, the related one at the same moment |
| CoOccurrence.OutOfOrderCanUndercount | src/graph/observe_incident.py:86-92 | however slow the decay, a round late enough makes a node's count smaller than an edge at it |
| CoOccurrence.Graph.RecordRound | src/graph/observe_incident.py:57-138 | ages and bumps every participant and the scope once |
| CoOccurrence.Graph.RecordEdges | src/graph/observe_incident.py:193-226 | ages and bumps the edge of each pair with the current incident, from whichever fired first |
| CoOccurrence.Graph.Observe | src/graph/observe_incident.py:141-235 | one round, or nothing if the current incident is not active |
| RootCauseRanker.LeadingIsFollowing | src/graph/root_cause_ranker.py:188-202 | over any rows, all outbound adds up to all inbound |
| RootCauseRanker.BystandersAreNotNamed | src/graph/root_cause_ranker.py:204-212 | where every node leads as much as it follows there is no verdict |
| RootCauseRanker.VerdictsAreSeparated | src/graph/root_cause_ranker.py:214-242 | every other net is at most 0.65 of the leader's, its inbound at most 0.75 of its outbound, confidence in [0.35, 1] |
| RootCauseRanker.NoCoinFlips | src/graph/root_cause_ranker.py:166-242 | the same for a verdict computed from any stored rows |
| RootCauseRanker.VerdictIsExact | src/graph/root_cause_ranker.py:166-242 | there is a verdict exactly if one node leads all others, has support 1.5, leads net a quarter of what it sends out, and its margin, scaled by support short of six, makes 0.35 of its lead; its fields are these totals |
| RootCauseRanker.WeighedExactly | src/graph/root_cause_ranker.py:144-200 | a row counts decayed since the newest, with the lift of its count over chance, one without marginals and at most four |
| RootCauseRanker.TotalsGrow | src/graph/root_cause_ranker.py:180-205 | each row adds its weight times its lift to its source's outbound and its target's inbound |
| RootCauseRanker.OrderDecidesNothing | src/graph/root_cause_ranker.py:188-242 | rows in another order give the same verdict |
| RootCauseRanker.ScoreIgnoresOrder | src/graph/root_cause_ranker.py:166-242 | so do the rows it is computed from, ageing included |
| RootCauseRanker.ShiftingTimesChangesNothing | src/graph/root_cause_ranker.py:178-193 | moving every time by as much changes no verdict |
| RootCauseRanker.LiftIsNonNegative | src/graph/root_cause_ranker.py:144-163 | lift lies between 0 and its cap |
| RootCauseRanker.Accumulate | src/graph/root_cause_ranker.py:180-202 | the dictionaries hold, for every node, the sums over the rows |
| RootCauseRanker.ScoreRootCause | src/graph/root_cause_ranker.py:166-242 | the loops give the verdict of the specification |
| TreeWalk.HeightIsEnough | src/github_integration/client.py:446-451 | a flattening does not depend on the depth allowed, once it fits |
| TreeWalk.CyclesNeverFlatten | src/github_integration/client.py:452-453 | an object on a cycle has no flattening at any depth |
| TreeWalk.ReachingACycleNeverFlattens | src/github_integration/client.py:452-453 | nor has one that leads to a cycle |
| TreeWalk.WhatFlattens | src/github_integration/client.py:446-492 | a tree has a flattening exactly if no chain of trees comes to a missing, truncated or repeated object |
| TreeWalk.WholePaths | src/github_integration/client.py:440-500 | a flattening holds an entry exactly if names lead to its object from the root, under those names joined by slashes |
| TreeWalk.FlatIsPreorder | src/github_integration/client.py:440-500 | each tree of a flattening is followed at once by its own flattening |
| TreeWalk.TreesCount | src/github_integration/client.py:446-492 | the requests a flattening takes are its trees and the root |
| TreeWalk.Walker.Walk | src/github_integration/client.py:446-492 | always ends; is done exactly where the tree flattens within depth, entry and request limits, and then adds its preorder; the active set is always the current path |
| TreeWalk.Walker.WalkEntries | src/github_integration/client.py:473-490 | the loop over one tree's entries |
| TreeWalk.GetCompleteTree | src/github_integration/client.py:407-495 | the recursive answer if it is whole and small enough, else the flattening exactly if it fits |
| Ledger.Verify | scripts/verify_chain.py:44-79 | finds the first row that does not carry on from the one before or does not hash to what it says |
| Ledger.StoredRoundsDown | src/engine/db_adapter.py:40-44 | the stored time is the event's in UTC, rounded down to the millisecond |
| Ledger.WrittenVerifiesIfExact | src/engine/db_adapter.py:40-58 | the verifier accepts what the writer wrote exactly if every time was UTC in whole milliseconds |
| Ledger.RefusedTimes | src/engine/db_adapter.py:40-58 | a time of one and a half milliseconds, one on a clock ahead of UTC, and one that does not say are each refused |
| Ledger.RowsAreNumbered | src/db/hashchain.py:21-30 | rows are numbered from one without gaps |
| Ledger.LastHashFixesAll | scripts/verify_chain.py:60-77 | two accepted ledgers of one length and last hash agree on every payload |
| Ledger.ChangesShow | scripts/verify_chain.py:60-77 | a row changed in what it says is never accepted under the same last hash |

## Left out

- QuietDeadlines.FirstDeadlinesAreBounded: within the budget only if the first window fits in it, as the settings' 5 s in 600 s do, because the code does not bound a first deadline.
- QuietDeadlines.RepeatDeadlinesAreBounded: bounds incidents first taken in after the epoch, because the code leaves others unbounded.
- QuietDeadlines.NoStormDefersItself: is about deadlines still scheduled; a restart may forget some, as only future ones are rehydrated.
- OutboxTheorems.OutageKillsNothing: attempts lag behind the verdicts heard by those a crash kept from being charged, which is what the code does.
- CoOccurrence.SharedIsBounded: asks the order of rounds it needs, which is enough but not exact, because the code clamps elapsed time at zero and moves a counter's clock back.
- Ledger.LastHashFixesAll: takes the hash to be injective, and the canonical JSON to determine the payload.
- SseBroker.StreamIsGapFree: takes the incident of every ledger row to be present, as the writer leaves it; a single poll is modelled with missing ones.
- InstallationOrder.NewestWins: speaks of batches with a newest webhook; of two different ones of the greatest version the code keeps whichever arrives first.
- InstallationOrder.StatusIgnoresOrder: where the newest does not apply to the starting row, says nothing of which older ones stand.
- EngineWriter.Writer.Ingest: takes the edges the observation leaves as an input; `CoOccurrence` models how they are counted.
- TreeWalk.WholePaths: takes every entry to have a path, as the client refuses others (`src/github_integration/client.py:736-740`).
- RootCauseRanker.VerdictIsExact: is about rows with no negative weight, as observation writes them.
- OutboxSteps.OutagesAreFailedOver: a crash between declaration and failover loses the failover, as the code does; the rows stay queued.
- TimerWheel.Wheel.PopDue: the heap is a set read at its least element, not an array kept in heap order; FIFO among equal deadlines is not claimed, as generations restart at one.
- Slack, PagerDuty, SMTP, model and GitHub HTTP calls, and classifying their answers: a provider's answer is an input.
- Rendering of cards, digests and payloads; which payload a redirected row carries.
- Path, text, metadata and digest-format checks of a patch: a path or action is valid or not as an input.
- Clock skew, flapping, priorities by severity, settings and logging: single branches.
- A full name that clashes with another repository's aborts its transaction; such webhooks are not events here.
- Deriving neighbours of an observation round from fingerprints and the correlation window: they are inputs.
- Which snapshot contents a subscriber sees: the snapshot's queries are not one transaction.
- The web interface, authentication, signatures, schema migrations, demo and smoke scripts.
