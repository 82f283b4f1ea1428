# Verified model of the monitoring agent, collector and dashboard

The repository is a network monitoring system: agents measure, a collector stores, alerts and
schedules commands, and a dashboard shows and configures. This project models the parts of it that
hold state under concurrency or failure, or that print what another part parses, and proves what
they promise. `dafny verify dfyconfig.toml` checks all of it.

## How it is put together

Each component has a state as a value, its atomic steps as `Apply(state, event)` and its runs as
`Exec`, folded over any sequence of events; the theorems are about every such sequence. Beside it
stands a class with the fields of the original object and one method for each critical section or
loop, proved to make the step of the value model. `Dispatcher.CommandScheduler`, `ForkJoin.Cycle`,
`AgentLoop.Agent`, `DnsResolver.Resolver` and `AlertManagement.AlertManager` keep their events in a
ghost sequence, and their `Valid()` says that they are in the state of that run, so the theorems hold
of the object as it is. The other classes are tied to their specification call by call;
`SchedulerTicks.Scheduler` is one scheduler alone with the table, while `ScheduleRuns` is about any
number of them as events on the table. Clocks, send results, statement results and answers of the
network are inputs, chosen freely.

| component | files |
|---|---|
| command scheduler: slot arithmetic, table, many schedulers, single scheduler, queue and workers | `slots`, `schedule_table`, `schedule_runs`, `scheduler_ticks`, `dispatcher` |
| alert manager: rules, keys, engine, runs, last verdict, what rules mean, object | `alert_rules`, `alert_keys`, `alert_engine`, `alert_runs`, `alert_verdicts`, `alert_meaning`, `alert_manager` |
| agent delivery: disk buffer, batches under way, main loop | `disk_buffer`, `delivery`, `agent_loop` |
| DNS resolver | `dns_resolver`, `decimal` |
| probe fork and join, and when it can finish | `fork_join`, `fork_join_progress` |
| option parser, and what its caller sees | `getopt`, `getopt_results` |
| probe configuration, printed and parsed | `config_summary`, `decimal` |
| ingest | `ingest` |
| chart bucketing, and what its numbers are | `charts`, `chart_values` |

## Where the code does not do what is said about it

Each of these is a theorem that says exactly when the code meets the promise, or exactly what it does
instead; where the failure takes several steps, a run shows it.

- "Another scheduler (or an old tick) must not double dispatch this slot"
  (collector/src/command_scheduler.cpp:119) holds for claims made at or after their slot. The due
  window opens 2000 ms early, and an early claim of an aligned slot writes the same `next_run` back:
  `Slots.ClaimRepeatsIff`, `ScheduleRuns.EarlyClaimsRepeat`, `SchedulerTicks.EveryEarlyTickClaims`.
- "Next execution slot strictly after" is the least such slot only from inside the window; from
  before it, slot 0 is skipped: `Slots.NextSlotIsLeastIff`. The one caller never asks from there,
  since only due rows are claimed and a row is due inside its window: `ScheduleRuns.InvHolds`.
- An agent is busy for nothing exactly when a worker popped a run of it after a stop was requested,
  and then for good: `Dispatcher.BusyForNothingIff`, `Dispatcher.StrandedAgentNeverRunsAgain`.
- "A failed field-based probe has no value, so it cannot fire or resolve the alert"
  (collector/src/alerting/alert_manager.cpp:372-373): it resolves the alert exactly when the last
  probe before it was violated, `AlertVerdicts.FailedProbeResolvesIff`,
  `AlertVerdicts.FailedProbeWitness`.
- A repeat interval of zero repeats at every evaluation: `AlertRuns.ZeroRepeatNotifiesEveryTime`.
- Check types do not survive printing and reading, apart from six: `AlertRules.CheckTypeRoundTripIff`.
- The counters of the disk buffer are right after `Open` exactly when the counting query ran or the
  table was empty. Right counters are right later exactly when no payload was deleted that the cursor
  of `Pop` did not return. Counters that were not read heal: if no payload is deleted unread, they are
  right exactly when the table has been empty since. `DiskBuffering.DiskBuffer.Open`,
  `Delivery.StayRightIff`, `Delivery.HealIff`, `AgentLoop.CountersMatchIff`, and
  `Delivery.CountersGoWrongAndHeal` for the runs. Order, conservation and the sparing of this
  process's batches hold whatever the counters say.
- "Redelivered metrics are skipped" (collector/src/storage/timescale_storage.cpp:366) holds for a
  batch that arrives with the same clock reading only, and direct mode takes a new one for each
  delivery: `Ingest.RedeliveryIsSkippedIff`.
- The DNS resolver resolves a key once at a time exactly while every insert finds its key not in
  flight, which nothing checks: `DnsResolver.SingleFlightIff`, `DnsResolver.NoSingleFlight`.
- A cached answer is sure to be unexpired only if no time passes between reading the clock and
  looking at the table; otherwise it can be late by just under that time:
  `DnsResolver.HitsAreFreshIff`, `DnsResolver.StaleHitIsReachable`.
- A probe cycle waits for good exactly when the last worker notifies between the cycle thread's last
  look at the latch and its block: `ForkJoin.WakeupIsLostIff`, `ForkJoin.StuckIffLost`,
  `ForkJoin.LostWakeupIsReachable`; from every other state it can still finish,
  `ForkJoinProgress.CanFinishIff`. The notification can also come after its scope has ended:
  `ForkJoin.NotifyAfterReturnIsReachable`.
- Inserting a batch of more rows than one statement takes stores its beginning and fails:
  `Ingest.Storage.InsertMetrics`.

## Model

| member | source | states |
|---|---|---|
| `Slots.NextSlotIndex` | collector/src/command_scheduler.cpp:32-39 | From inside the window the next slot is on the grid, strictly after the given time by at most one interval, and its index is one more than that of the time |
| `Slots.NextSlotIsLeastIff` | collector/src/command_scheduler.cpp:29-39 | The next slot is the least aligned slot strictly after the given time exactly when that time is not before the window start; before the window the start itself would be earlier |
| `Slots.NextSlotBelowSlot` | collector/src/command_scheduler.cpp:32-39 | No slot lies between a time and its next slot |
| `Slots.ClaimAdvancesIff` | collector/src/command_scheduler.cpp:115-124 | For a slot of the grid, the claim moves next_run strictly forward exactly when no slot boundary lies in (now, slot]; every claim made at or after its slot is such a one |
| `Slots.ClaimRepeatsIff` | collector/src/command_scheduler.cpp:115-124 | For an aligned slot and an interval of at least a minute, a claim inside the due window writes the same next_run back exactly when it is made before the slot |
| `ScheduleTable.RebasedIsFresh` | collector/src/storage/timescale_storage.cpp:557-578 | A rebase moves exactly the enabled rows that are at least 2000 ms into their window, not past its end, and more than 2000 ms behind the clock, each to its least slot after now; so no enabled, running schedule lags more than 2000 ms, and every row keeps its window, stays valid and never moves backwards |
| `ScheduleTable.Create` | collector/src/http_server.cpp:731-791 | A request is refused exactly when the agent is missing, the interval is under 60 s, or the window is over or does not end after it starts; the row it yields is enabled, keeps what was asked for, and its first run is the window start or the creation time, whichever is later |
| `ScheduleTable.Storage.RescheduleStale` | collector/src/storage/timescale_storage.cpp:557-578 | The row-by-row update turns the table into its rebased image |
| `ScheduleTable.Storage.ListDue` | collector/src/storage/timescale_storage.cpp:526-555 | At most 20 rows, all due, distinct, oldest next_run first; none left out that is due earlier than a listed one, and none left out at all when fewer than 20 are listed |
| `ScheduleTable.Storage.Advance` | collector/src/storage/timescale_storage.cpp:664-680 | Compare-and-set: succeeds exactly when the row still holds the expected next_run and is enabled, and changes nothing else |
| `ScheduleRuns.InvHolds` | collector/src/storage/timescale_storage.cpp:526-680 | In every run of creates, deletes, pauses, rebases, lists and claims by any number of schedulers: every row and every listed or logged row is a valid row of its schedule's window with next_run not before window_start |
| `ScheduleRuns.ProgressHolds` | collector/src/command_scheduler.cpp:110-124 | While all claims of a schedule advance: claimed slots lie before next_run and strictly increase, and claims never outnumber the slot boundaries passed |
| `ScheduleRuns.ClaimedAtMostOnce` | collector/src/command_scheduler.cpp:119-124 | No slot is claimed twice by any number of schedulers with their own clocks, as long as every claim of that schedule advances |
| `ScheduleRuns.OnTimeAdvances` | collector/src/command_scheduler.cpp:115-124 | A claim made at or after its slot advances |
| `ScheduleRuns.RepeatedClaimWasEarly` | collector/src/command_scheduler.cpp:119-124 | If a slot is claimed twice, some claim of that schedule was made before the time of the slot it claimed |
| `ScheduleRuns.ClaimsFitTheWindow` | collector/src/http_server.cpp:763-791 | With advancing claims a schedule is claimed at most 1 + floor((window_end - window_start) / interval) times over any run, pauses and outages included |
| `ScheduleRuns.EarlyClaimsRepeat` | collector/src/storage/timescale_storage.cpp:533-543 | A concrete run in which two early claims dispatch the slot at 60 s twice and leave it claimable |
| `ScheduleRuns.ClaimTakesADueRow` | collector/src/command_scheduler.cpp:115-124 | In every run a claim that changes the table takes a row that is enabled at that moment and still has the listed next_run, within 2000 ms of the claiming clock and inside its window; it moves on to the least slot after that clock, no other row moves, and it is dispatched exactly when the reply arrives |
| `ScheduleRuns.PausedIsNeverClaimed` | collector/src/storage/timescale_storage.cpp:664-680 | From a state of any run in which a schedule is paused or deleted, no scheduler claims it again before somebody enables it, whatever was listed before |
| `SchedulerTicks.Scheduler.Tick` | collector/src/command_scheduler.cpp:110-124 | With storage answering and at most 20 due rows, one tick turns every row into its ticked image, rebased and then claimed if due, and makes just those claims; in any case it claims only enabled schedules inside their window and within 2000 ms of now |
| `SchedulerTicks.Scheduler.ClaimAll` | collector/src/command_scheduler.cpp:114-124 | Claiming down the due list moves exactly the listed rows to their next slots |
| `SchedulerTicks.Scheduler.Loop` | collector/src/command_scheduler.cpp:99-134 | With storage answering and never more than 20 rows due, the claims of a run of ticks are, schedule by schedule, in order and claim by claim, those of each schedule by itself; with ticks at most 2000 ms apart every slot not passed over before they began, slot 0 included, that has a tick between itself and the window end is among them |
| `SchedulerTicks.ShortListIsComplete` | collector/src/storage/timescale_storage.cpp:526-555 | When at most 20 rows are due the due list holds them all |
| `SchedulerTicks.NextTick` | collector/src/command_scheduler.cpp:110-124 | A schedule on track is not rebased by the next tick, and a slot that this tick is the first to reach is the one it claims |
| `SchedulerTicks.TrackHolds` | collector/src/command_scheduler.cpp:110-124 | After any ticks, inside and outside the window, an enabled schedule is valid and on track: if the last tick was inside, next_run is the next slot or more than 2000 ms ahead |
| `SchedulerTicks.NoSlotMissed` | collector/src/command_scheduler.cpp:29-31 | With ticks at most 2000 ms apart, wherever they begin and end, every slot that has a tick between itself and the window end is claimed, slot 0 included, unless it had been passed over before they began |
| `SchedulerTicks.NeverSilentlyRebased` | collector/src/command_scheduler.cpp:112 | After the first of such ticks no rebase moves the schedule, inside the window or outside |
| `SchedulerTicks.CreatedAheadClaimsEverySlot` | collector/src/http_server.cpp:790 | A schedule created before its window and ticked steadily from no later than 2000 ms into it claims every slot that has a tick up to the window end; slot 0 is the window start |
| `SchedulerTicks.CreatedInsideRunsAtOnce` | collector/src/http_server.cpp:790 | One created inside its window has its first claim at the first tick within 2000 ms, for the creation time |
| `SchedulerTicks.SlotIsClaimedIff` | collector/src/command_scheduler.cpp:110-124 | For an aligned schedule that condition is exact: of the slots with a tick between themselves and the window end, those claimed are the ones not passed over |
| `SchedulerTicks.EveryEarlyTickClaims` | collector/src/command_scheduler.cpp:115-124 | Any number of ticks in the two seconds before an aligned slot are as many claims of that one slot, which stays next_run |
| `Dispatcher.InvHolds` | collector/src/command_scheduler.cpp:50-176 | The full invariant of queue, busy set, workers and fates over every interleaving of Start, claims, workers, Stop and restart |
| `Dispatcher.OneCommandPerAgent` | collector/src/command_scheduler.cpp:127-130 | Agents of queued and executing runs are pairwise distinct and all busy, also during and after Stop; before the first Stop the busy set is exactly those agents |
| `Dispatcher.EveryRunAccountedFor` | collector/src/command_scheduler.cpp:99-176 | Every claimed run is live or has one recorded fate, never both, and workers take runs in claim order |
| `Dispatcher.StrandedStays` | collector/src/command_scheduler.cpp:165-169 | A stranded agent stays stranded under every later event |
| `Dispatcher.StrandedAgentNeverRunsAgain` | collector/src/command_scheduler.cpp:165-176 | An agent whose run was popped during shutdown is never queued or executed again by this object |
| `Dispatcher.StrandedIff` | collector/src/command_scheduler.cpp:165-169 | An agent is stranded exactly when some worker popped a run of it after a stop had been requested |
| `Dispatcher.BusyForNothingIff` | collector/src/command_scheduler.cpp:127-176 | In every run an agent is busy with nothing queued or executing for it exactly in that case |
| `Dispatcher.StrandingIsReachable` | collector/src/command_scheduler.cpp:153-169 | One queued run, a stop and one wake-up reach that state |
| `Dispatcher.StopCanFinish` | collector/src/command_scheduler.cpp:66-84 | From every reachable state with a stop requested, finishing the runs under way and waking each thread lets all of them return and be joined, with no new start and no new run |
| `Dispatcher.QueueCanDrain` | collector/src/command_scheduler.cpp:153-176 | From every reachable state of a started scheduler the workers can execute and finish all that is queued and under way, and then just the stranded agents are busy |
| `Dispatcher.CommandScheduler.StartThreads` | collector/src/command_scheduler.cpp:50-64 | Starting four waiting workers and the loop is the Start step exactly when the object is started already or all its threads have been joined; otherwise it reports the overwritten threads |
| `Dispatcher.CommandScheduler.OfferRun` | collector/src/command_scheduler.cpp:125-131 | A claimed run is queued exactly when the scheduler is not stopping and its agent is idle |
| `Dispatcher.CommandScheduler.TakeRun` | collector/src/command_scheduler.cpp:156-169 | A worker executes the oldest queued run exactly when there is one and no stop was requested; with a stop requested it returns, whatever is queued, and without one and with nothing queued it goes on waiting |
| `Dispatcher.CommandScheduler.WakeLoop` | collector/src/command_scheduler.cpp:102-107 | The woken loop thread ends exactly when a stop was requested |
| `Dispatcher.CommandScheduler.FinishRun` | collector/src/command_scheduler.cpp:170-175 | A finished run frees its agent and nothing else |
| `Dispatcher.CommandScheduler.RequestStop` | collector/src/command_scheduler.cpp:66-72 | The locked part of Stop is the BeginStop step |
| `Dispatcher.CommandScheduler.JoinThreads` | collector/src/command_scheduler.cpp:80-84 | The end of Stop forgets the returned workers but not the busy agents |
| `AlertRules.CheckTypeRoundTripIff` | collector/src/alerting/alert_rule.cpp:5-31 | Printing and reading a check type is the identity exactly for the six printed types; the five newer ones print as "unspecified" |
| `AlertKeys.SplitInvertsIff` | collector/src/alerting/alert_manager.cpp:103-107 | Splitting a state key gives back rule, agent and target exactly when rule and agent hold no separator; the target may hold any |
| `AlertKeys.StateKeyInjective` | collector/src/alerting/alert_manager.cpp:103-107 | Separator-free ids never share a state key |
| `AlertKeys.PrefixIsRulePart` | collector/src/alerting/alert_manager.cpp:300-308 | The prefix test of DeleteRule picks exactly the keys whose rule part is the deleted id |
| `AlertMeaning.NamesAreRead` | collector/src/alerting/alert_rule.cpp:17-30 | A string is read as a check type exactly when it is one of the eleven names, and then as that type |
| `AlertMeaning.MatchesIff` | collector/src/alerting/alert_manager.cpp:345-353 | A rule looks at a probe exactly when agent and target are empty or equal and no known check type other than the probe's is named; an unknown check type excludes nothing |
| `AlertMeaning.ProbeVerdict` | collector/src/alerting/alert_manager.cpp:361-417 | One probe from any state: the alert of a rule that does not look at it keeps its state, and one that does is firing afterwards exactly when the probe failed (on_failure) or succeeded with a value beyond the threshold |
| `AlertMeaning.OnFailureFiresIff` | collector/src/alerting/alert_manager.cpp:361-365 | From any state an on_failure alert is firing after a probe it looks at if and only if the probe failed |
| `AlertMeaning.FieldFiresIff` | collector/src/alerting/alert_manager.cpp:366-371 | From any state a field alert is firing after such a probe if and only if the probe succeeded and has the named field above or below the threshold, for each of the five field names; an unknown or absent field and a value equal to the threshold never fire |
| `AlertMeaning.FiringIffLastProbeCallsForIt` | collector/src/alerting/alert_manager.cpp:179-420 | After loading rules and any Evaluate calls an alert is firing if and only if the last probe its rule looks at, for its agent and target, calls for it in that sense |
| `AlertMeaning.FirstFiring` | collector/src/alerting/alert_manager.cpp:375-388 | The first firing of an episode logs a record with the fields of rule and probe and the value seen, and the state remembers value, detail and this time |
| `AlertMeaning.RepeatedFiring` | collector/src/alerting/alert_manager.cpp:389-404 | A repeated one logs such a record, and keeps the time of the first, exactly when the repeat interval has passed since the last; otherwise nothing changes |
| `AlertMeaning.Resolving` | collector/src/alerting/alert_manager.cpp:406-417 | A probe that does not call for firing logs a resolved record with the last value and detail and resets the state, or changes nothing if the alert was not firing |
| `AlertRuns.EvalRuleKeeps` | collector/src/alerting/alert_manager.cpp:343-417 | One step of the inner loop keeps the invariant and only appends to the log |
| `AlertRuns.ApplyKeeps` | collector/src/alerting/alert_manager.cpp:179-420 | So does every operation: evaluation, acknowledgement, upsert, delete and load |
| `AlertRuns.InvHolds` | collector/src/alerting/alert_manager.cpp:179-420 | States agree with the log they came from, and each belongs to a current rule, over every run |
| `AlertRuns.ResolvedFollowsFiring` | collector/src/alerting/alert_manager.cpp:406-417 | Each resolved record is immediately preceded, among its key's records, by a firing one |
| `AlertRuns.RepeatsAreSpaced` | collector/src/alerting/alert_manager.cpp:382-404 | A repeat follows the previous record of its episode by at least the repeat interval then in force, whatever the clock and the rule edits |
| `AlertRuns.OneAckPerEpisode` | collector/src/alerting/alert_manager.cpp:505-514 | Between two successful acknowledgements of one key a new episode opened |
| `AlertRuns.AcknowledgedIsFiring` | collector/src/alerting/alert_manager.cpp:505-514 | Acknowledged implies firing, and a firing state knows the time of its last notification |
| `AlertRuns.FiringStateReadsTheLog` | collector/src/alerting/alert_manager.cpp:376-417 | In every run a firing state remembers the time of the record that opened its episode and the value of its last record, and is acknowledged exactly when an acknowledgement was logged since the opening |
| `AlertRuns.UnknownRuleIsDead` | collector/src/alerting/alert_manager.cpp:441-459 | With separator-free rule ids, the active list never meets a state whose rule is unknown |
| `AlertRuns.DeleteForgetsItsRule` | collector/src/alerting/alert_manager.cpp:276-310 | DeleteRule forgets exactly the states of its rule and keeps all others as they were |
| `AlertRuns.FailedProbeKeepsAlertIff` | collector/src/alerting/alert_manager.cpp:372-417 | One step: a failed probe of a field-based rule leaves state and log alone exactly when the alert was not firing, and leaves the alert not firing |
| `AlertRuns.EpisodeIsSpaced` | collector/src/alerting/alert_manager.cpp:382-404 | The records of one episode span at least (count - 1) repeat intervals |
| `AlertRuns.EpisodeNotificationsBounded` | collector/src/alerting/alert_manager.cpp:376-404 | In terms of the log: an episode of D ms all of whose firings were under repeat intervals of at least G ms has logged at most 1 + floor(D / G) firing records |
| `AlertRuns.RepeatIntervalBoundsEpisode` | collector/src/alerting/alert_manager.cpp:376-404 | In terms of the rules: if every version of the rule ever upserted or loaded repeats no sooner than after G ms, an episode of D ms has logged at most 1 + floor(D / G) firing records, whatever else happened in the run |
| `AlertRuns.ZeroRepeatAlwaysNotifies` | collector/src/alerting/alert_manager.cpp:389-404 | The exact guard of a repeat: a violated probe of a firing alert notifies again exactly when the repeat interval has passed |
| `AlertRuns.ZeroRepeatNotifiesEveryTime` | collector/src/alerting/alert_manager.cpp:382-404 | With a repeat interval of zero and a clock that does not run backwards, n violated probes of a rule are n notifications |
| `AlertVerdicts.EvalRulesAt` | collector/src/alerting/alert_manager.cpp:343-417 | With distinct, separator-free rule ids one probe settles each key by its own rule and no other |
| `AlertVerdicts.FiringIffLastViolated` | collector/src/alerting/alert_manager.cpp:343-417 | From empty states a key is firing if and only if the last probe that its rule looked at, for its agent and target, was violated |
| `AlertVerdicts.EvalConcat` | collector/src/alerting/alert_manager.cpp:327-345 | Evaluating two sequences of probes one after the other is evaluating their concatenation |
| `AlertVerdicts.RunIsEval` | collector/src/alerting/alert_manager.cpp:327-420 | A sequence of Evaluate calls is one evaluation of all their probes |
| `AlertVerdicts.FiringAfterLoadIff` | collector/src/alerting/alert_manager.cpp:179-420 | After loading rules and any Evaluate calls an alert is firing if and only if the last probe its rule looked at was violated |
| `AlertVerdicts.FailedProbeResolvesIff` | collector/src/alerting/alert_manager.cpp:372-417 | Against the comment at 372-373: after loading rules and any Evaluate calls, a failed probe logs a resolved record of a field-based alert if and only if the last probe its rule had looked at was violated, and never leaves it firing |
| `AlertVerdicts.FailedProbeResolves` | collector/src/alerting/alert_manager.cpp:406-417 | A violated probe followed by a failed one fires and resolves the alert |
| `AlertVerdicts.FailedProbeWitness` | collector/src/alerting/alert_manager.cpp:406-417 | And a concrete rule and two pings do so |
| `AlertVerdicts.BatchingIsInvisible` | collector/src/alerting/alert_manager.cpp:327-420 | How probes are cut into batches does not change states or log |
| `AlertManagement.AlertManager.Log` | collector/src/alerting/alert_manager.cpp:376-404 | One record is appended, the fired counter counts it if it fired, and the history is the last 1000 records of the full log |
| `AlertManagement.AlertManager.Applies` | collector/src/alerting/alert_manager.cpp:345-353 | The loop goes on to the next rule exactly when this one does not look at the probe |
| `AlertManagement.AlertManager.Judge` | collector/src/alerting/alert_manager.cpp:357-371 | The branches decide exactly whether the probe calls for firing, with the value and detail that go with it |
| `AlertManagement.AlertManager.EvaluateRule` | collector/src/alerting/alert_manager.cpp:345-417 | Updating state, history and counter in place is one step of the engine, and the records added are those handed out |
| `AlertManagement.AlertManager.Evaluate` | collector/src/alerting/alert_manager.cpp:327-429 | A whole batch is the fold of the engine over metrics and rules, and the notifications sent are the records logged, in order |
| `AlertManagement.AlertManager.Acknowledge` | collector/src/alerting/alert_manager.cpp:505-514 | Succeeds exactly for a firing key not yet acknowledged, and changes only that flag |
| `AlertManagement.AlertManager.UpsertRule` | collector/src/alerting/alert_manager.cpp:239-274 | The rule replaces the first one of its id in place or comes last, and only if the rules file could be written |
| `AlertManagement.AlertManager.DeleteRule` | collector/src/alerting/alert_manager.cpp:276-310 | Succeeds exactly when there is such a rule and the file could be written; then just the rules of that id and the states under its prefix are gone |
| `AlertManagement.AlertManager.EraseKeys` | collector/src/alerting/alert_manager.cpp:300-308 | The erasing loop removes exactly the keys with the prefix |
| `AlertManagement.AlertManager.LoadRules` | collector/src/alerting/alert_manager.cpp:179-215 | Loading replaces the rules and forgets all states, the history stays |
| `AlertManagement.AlertManager.ActiveAlerts` | collector/src/alerting/alert_manager.cpp:437-472 | The active list has one row for each firing key and no other row |
| `AlertManagement.ActiveRowReadsTheLog` | collector/src/alerting/alert_manager.cpp:437-472 | In every run a row of the list is: the value of the key's last record, the time of the record that opened the episode, acknowledged if that happened since, and name, severity and threshold of the rule as it stands |
| `AlertManagement.ActiveRowNamesItsAlert` | collector/src/alerting/alert_manager.cpp:437-459 | With separator-free ids each row names its own rule, agent and target |
| `DiskBuffering.TrimCountIsLeast` | agent/src/disk_buffer.cpp:180-198 | The trimmed prefix is the shortest one that brings the rest within a bound, or everything |
| `DiskBuffering.DiskBuffer.Open` | agent/src/disk_buffer.cpp:54-87 | The cached counters are right afterwards exactly when the counting query ran or the table was empty, and zero when it did not run |
| `DiskBuffering.DiskBuffer.Trim` | agent/src/disk_buffer.cpp:180-215 | Only with a counter above the cap, removes the shortest prefix that would bring it back, or as much of it as the cursor returned; only inherited rows go, whatever the counters, the unsigned subtraction never wraps, and a byte counter too large by d stays so |
| `DiskBuffering.DiskBuffer.CountToTrim` | agent/src/disk_buffer.cpp:189-196 | The size loop counts the shortest prefix to give up by the counter, or as many rows as the cursor returned |
| `DiskBuffering.DiskBuffer.Push` | agent/src/disk_buffer.cpp:93-116 | Stores the payload at the end or refuses it by the counter; a counter not too small stays right or too large by the same amount, and a success then ends within the cap |
| `DiskBuffering.DiskBuffer.Peek` | agent/src/disk_buffer.cpp:118-133 | The oldest rows in order, up to the limit and as many as the cursor returned |
| `DiskBuffering.DiskBuffer.Pop` | agent/src/disk_buffer.cpp:135-163 | Removes the oldest rows it was asked for, or all there are; a byte counter too large by d becomes too large by d and the size of the deleted rows that the cursor did not return, so right counters stay right exactly when that size is 0 |
| `Delivery.InvHolds` | agent/src/main.cpp:256-341 | Over every sequence of produces, drains, spills and sends: what waits is in production order, the queue is bounded and inherited rows are the oldest on disk |
| `Delivery.EveryBatchAccountedFor` | agent/src/main.cpp:256-341 | Every batch ever made is in exactly one place: probe queue, in hand, memory, disk, delivered, counted drop, discarded as unparseable, trimmed or overwritten |
| `Delivery.WaitingInProductionOrder` | agent/src/main.cpp:256-341 | Disk, then memory, then queue is always in production order, and the disk never gives up a batch of this process to make room, whether its counters are right or not |
| `Delivery.CountersDrift` | agent/src/disk_buffer.cpp:142-162 | Counters that were right drift by just the payloads deleted unread: at the end of every run the row counter is right and the byte counter too large by their total |
| `Delivery.StayRightIff` | agent/src/disk_buffer.cpp:142-162 | So they are right at the end of a run exactly when no payload was deleted unread |
| `Delivery.HealIff` | agent/src/disk_buffer.cpp:73-86 | Counters that could not be read at the start are, if no payload is deleted unread, right exactly when the table has been empty at some moment since, and too small until then |
| `Delivery.CountersGoWrongAndHeal` | agent/src/disk_buffer.cpp:135-163 | One payload popped unread makes right counters wrong, and one popped makes unread counters right |
| `Delivery.DrainEmptiesTheQueue` | agent/src/probe_runner.cpp:116-126 | A drain always empties the probe queue |
| `Delivery.AcksAreDeliveries` | agent/src/main.cpp:299-334 | What the collector acknowledged is what was delivered plus one extra for each row that could not be deleted afterwards |
| `Delivery.ResentOnlyAfterFailedDelete` | agent/src/main.cpp:318-334 | No batch is acknowledged from disk and kept while deletes work |
| `Delivery.AcknowledgedAtMost` | agent/src/main.cpp:299-334 | The collector acknowledges each batch at most once, and once more for each time its row could not be deleted |
| `Delivery.AcknowledgedOnce` | agent/src/main.cpp:318-334 | While deletes work nothing is acknowledged twice |
| `AgentLoop.Agent.Produce` | agent/src/probe_runner.cpp:177-183 | A full probe queue loses its oldest batch, and the new one goes to the end |
| `AgentLoop.Agent.SpillOldest` | agent/src/main.cpp:260-274 | The oldest batch in memory is stored on disk or counted as dropped; with the byte counter within the cap it is stored exactly when the disk is open, the batch can be written out, the insertion works and the counter has room for it |
| `AgentLoop.Agent.SpillExcess` | agent/src/main.cpp:260-274 | Spilling removes just as many of the oldest batches as memory holds too many, and drops none while the disk has room for all |
| `AgentLoop.Agent.Intake` | agent/src/main.cpp:256-275 | After taking in a drain, memory holds the newest max_buffer_size batches, each older one was spilled or counted, and none dropped if the disk had room for all |
| `AgentLoop.Agent.DrainDisk` | agent/src/main.cpp:318-334 | Makes exactly the leading passes that go through, ten at most: rows left, events and the drained counter are those of these passes |
| `AgentLoop.DrainCountIsLeading` | agent/src/main.cpp:318-334 | The number of passes is that of the leading ones that find a row they can read and send or discard, up to ten |
| `AgentLoop.GoodDrain` | agent/src/main.cpp:318-334 | With everything working a drain takes the ten oldest rows off the disk, or all there are |
| `AgentLoop.GoodSends` | agent/src/main.cpp:290-341 | And n accepted sends with their drains take off ten rows each, as far as there are any |
| `AgentLoop.Agent.ResendOldest` | agent/src/main.cpp:319-333 | One pass resends or discards the oldest row and counts it exactly when there is one that can be read and the collector accepts it or it cannot be parsed; otherwise it stops without a change |
| `AgentLoop.Agent.Deliver` | agent/src/main.cpp:290-341 | Removes from memory exactly as many of the oldest batches as there are leading accepted sends, up to eight when more than one waits and one otherwise; each is one send followed by one drain of the disk |
| `AgentLoop.BuffersAccountForEverything` | agent/src/main.cpp:256-341 | In every state the methods can leave, disk, memory and queue of the agent with all that was settled are exactly the batches ever made, and what waits is in production order |
| `AgentLoop.CountersMatchIff` | agent/src/disk_buffer.cpp:93-163 | In every state the agent's methods can leave, the counters of its disk buffer match the table under just those conditions |
| `AgentLoop.Agent.Cycle` | agent/src/main.cpp:256-341 | One pass from any valid state: memory becomes the newest batches of what it held and took from the queue, less the leading accepted sends if it is time to send; when all are accepted, two to eight waiting batches are all gone; none is dropped while the disk has room |
| `Decimal.IntRoundTrip` | agent/src/dns_resolver.cpp:76-83 | Decimal notation of an integer reads back as that integer |
| `Decimal.DigitsAre` | agent/src/dns_resolver.cpp:76-83 | The digits are decimal, most significant first, behind a minus sign for negative numbers |
| `DnsResolver.InvHolds` | agent/src/dns_resolver.cpp:114-215 | Over every interleaving of callers, workers, clock and Clear: each in-flight entry has a worker of its own key that has not reached its erase; cached answers are successes for their key |
| `DnsResolver.NothingLeftInFlight` | agent/src/dns_resolver.cpp:186-191 | The in-flight table is empty once all workers have finished |
| `DnsResolver.RetireRemovesOnlyItsOwn` | agent/src/dns_resolver.cpp:186-191 | A worker removes its own in-flight entry and nobody else's |
| `DnsResolver.UnexpiredIsNeverReplaced` | agent/src/dns_resolver.cpp:192-201 | Through any run that does not clear the resolver and ends before the entry expires, a cached answer stays as it is |
| `DnsResolver.KeysAgreeIff` | agent/src/dns_resolver.cpp:76-83 | For all queries: two lookups share a key exactly when their joined names and all hints but the other flags agree |
| `DnsResolver.KeyIdentifiesIff` | agent/src/dns_resolver.cpp:76-83 | Among names without the separator: exactly when they agree on everything but those flags |
| `DnsResolver.AnswersAreForTheQuestion` | agent/src/dns_resolver.cpp:122-149 | Every answer served was resolved under the caller's own key, so among names without the separator for its own query up to those flags; from the cache it is a success |
| `DnsResolver.ServedWasSaid` | agent/src/dns_resolver.cpp:122-184 | Every answer a caller was served, success or failure and data, is what the worker of a lookup of the caller's key published first; one from the cache was published as a success |
| `DnsResolver.CachedWasSaid` | agent/src/dns_resolver.cpp:192-201 | Every cached answer was published first, as a success, by the worker of a lookup of its key |
| `DnsResolver.WorkerCaches` | agent/src/dns_resolver.cpp:192-201 | Over all runs: a lookup whose first published result was a failure leaves the cache unchanged when its worker ends; after a success whose key is absent or expired it caches that answer until 60000 ms from then |
| `DnsResolver.InsertDoublesIff` | agent/src/dns_resolver.cpp:151-155 | The missing guard: an insert keeps every key at one running lookup exactly when it finds its key not in flight, and otherwise makes two |
| `DnsResolver.SingleFlightIff` | agent/src/dns_resolver.cpp:122-201 | Over runs without Clear, no key ever has two running lookups if and only if every insert finds its key not in flight |
| `DnsResolver.NoSingleFlight` | agent/src/dns_resolver.cpp:122-155 | Two callers that check before either inserts start two lookups of one key |
| `DnsResolver.StaleHitIsReachable` | agent/src/dns_resolver.cpp:118-129 | For any delay between reading the clock and looking at the table there is a run whose hit is past its expiry by the delay less one millisecond |
| `DnsResolver.StalenessIsBounded` | agent/src/dns_resolver.cpp:118-129 | In every run a hit is past its expiry by less than that delay |
| `DnsResolver.HitsAreFreshIff` | agent/src/dns_resolver.cpp:118-129 | Hits are sure to be unexpired exactly when there is no such delay |
| `DnsResolver.Resolver.CheckTables` | agent/src/dns_resolver.cpp:122-136 | Unless the cache is bypassed, a hit exactly when the entry of the key expires after the clock reading of the caller, otherwise the running lookup of the key if there is one; nothing is changed |
| `DnsResolver.Resolver.Insert` | agent/src/dns_resolver.cpp:151-155 | The second replaces the in-flight entry of the key by a new lookup |
| `DnsResolver.Resolver.Publish` | agent/src/dns_resolver.cpp:179-184 | The lookup's result becomes what the worker was told, success or not, for its own query, and nothing else changes |
| `DnsResolver.Resolver.Retire` | agent/src/dns_resolver.cpp:186-201 | The worker's last section erases the in-flight entry if it is its own, and caches a success for 60000 ms if the key is absent or expired |
| `DnsResolver.Resolver.ClearTables` | agent/src/dns_resolver.cpp:108-112 | Clearing empties both tables and leaves running lookups alone |
| `ForkJoin.InvHolds` | agent/src/probe_runner.cpp:48-60 | Over every interleaving of the cycle thread and any number of workers: each task is where its status says, each slot is filled once written, the latch counts the unfinished tasks |
| `ForkJoin.JoinCollectsEverything` | agent/src/probe_runner.cpp:305-309 | If the wait returns, every task has finished and the metrics are those of running the tasks one after the other in submission order |
| `ForkJoin.LatchCountsUnfinished` | agent/src/probe_runner.cpp:292-303 | The latch is always the number of unfinished tasks |
| `ForkJoin.WakeupIsLostIff` | agent/src/probe_runner.cpp:298-306 | In every run without spurious wake-ups, the cycle thread waits for good after the last worker's notification if and only if that came between its last look at the latch and its block |
| `ForkJoin.StuckIffLost` | agent/src/probe_runner.cpp:298-306 | Over whole runs without spurious wake-ups the cycle thread is left waiting with nothing to come exactly when some notification was lost in that way |
| `ForkJoin.StaysForGood` | agent/src/probe_runner.cpp:298-306 | Once no task and no notification is left, only a spurious wake-up changes whether the cycle thread waits |
| `ForkJoin.LostWakeupIsReachable` | agent/src/probe_runner.cpp:298-306 | One task and one worker can reach a block that nothing will end |
| `ForkJoin.NotifyAfterReturnIsReachable` | agent/src/probe_runner.cpp:293-306 | The wait can return while the last worker has yet to notify a condition variable that is about to go out of scope |
| `ForkJoinProgress.GoodHolds` | agent/src/probe_runner.cpp:290-309 | In every interleaving a submitted task that is not done is in the queue or with a worker |
| `ForkJoinProgress.CanFinishIff` | agent/src/probe_runner.cpp:290-309 | With at least one worker, from a state of any interleaving the cycle can go on to return its metrics without a spurious wake-up if and only if it does not wait for a notification that has been made |
| `ForkJoin.Cycle.SubmitNext` | agent/src/probe_runner.cpp:295-304 | The first task not yet submitted comes last in the queue, or the cycle thread goes on to wait when there is none |
| `ForkJoin.Cycle.TakeTask` | agent/src/probe_runner.cpp:48-57 | A worker takes the oldest queued task |
| `ForkJoin.Cycle.RunTask` | agent/src/probe_runner.cpp:58 | A task fills its own slot and no other |
| `ForkJoin.Cycle.CountDownLatch` | agent/src/probe_runner.cpp:300-302 | The latch goes down by one, and the worker that brings it to zero is the one to notify |
| `ForkJoin.Cycle.CheckDone` | agent/src/probe_runner.cpp:305-309 | The wait returns exactly when the latch is zero, with the metrics of all tasks in submission order |
| `GetOpt.FindLong` | agent/src/platform/getopt.cpp:17-32 | The exact match if there is one, otherwise the only name it is a prefix of, otherwise ambiguous or none |
| `GetOpt.FoundIsUnique` | agent/src/platform/getopt.cpp:17-32 | That description leaves one answer |
| `GetOpt.StepMakesProgress` | agent/src/platform/getopt.cpp:46-167 | Every call that does not end the parse decreases (words left, characters left) and leaves the cursor on a character of the current word |
| `GetOpt.FindExact` | agent/src/platform/getopt.cpp:17-32 | With distinct names a full name finds its own row, also when it is a prefix of others |
| `GetOpt.StepReadsName` | agent/src/platform/getopt.cpp:61-123 | One call reads back one rendered long option: bare, with "=" or with the value in the next word |
| `GetOpt.FlagsRead` | agent/src/platform/getopt.cpp:125-166 | A run of short options inside a word is read back one by one |
| `GetOpt.ReadUse` | agent/src/platform/getopt.cpp:46-167 | A rendered long option, cluster of short options, or cluster that ends in one with an attached or separate value is read back |
| `GetOpt.ParseStops` | agent/src/platform/getopt.cpp:46-59 | The parse ends at the first word that is not an option, or behind "--" |
| `GetOpt.ParseReadsRender` | agent/src/agent_config.cpp:234 | Parsing any list of long options and clusters of short ones rendered as words returns that list in order and leaves optind behind it |
| `GetOpt.Parser.GetOptLong` | agent/src/platform/getopt.cpp:46-167 | The call on the mutable cursor is the model's step and keeps the cursor valid; it returns -1 at the end, the value of a long option or 0 if it has a flag, the character of a short one, and ':' or '?' for a problem, sets optopt on a problem and stores through a flag pointer |
| `GetOpt.Parser.ReadLong` | agent/src/platform/getopt.cpp:61-123 | The long-option branch, error cases included |
| `GetOpt.Parser.ReadShort` | agent/src/platform/getopt.cpp:125-166 | The short-option branch, error cases included |
| `GetOpt.Parser.ParseAll` | agent/src/agent_config.cpp:234 | Calling until -1 terminates on every argv and collects the results, codes and stored flags of the model |
| `GetOptResults.UsesYield` | agent/src/platform/getopt.cpp:118-123 | The codes of any list of uses, in order: the value of an unflagged long option, 0 for a flagged one, the character of each short option |
| `GetOptResults.RenderedCodes` | agent/src/agent_config.cpp:234 | Parsing any rendered list of uses yields those codes in order, and afterwards the flags of just the rows used hold their values |
| `GetOptResults.UnknownLong` | agent/src/platform/getopt.cpp:34-45 | A long option whose name begins no row's name gives '?' with optopt '?' and goes on behind its word, also behind a dash inside a cluster |
| `GetOptResults.AmbiguousLong` | agent/src/platform/getopt.cpp:68-77 | So does a name that begins two names and equals none |
| `GetOptResults.UnwantedArgument` | agent/src/platform/getopt.cpp:102-112 | A value for an option without argument gives '?' with the option's value in optopt |
| `GetOptResults.MissingLongArgument` | agent/src/platform/getopt.cpp:83-99 | A missing argument gives ':' exactly when the option string begins with ':', else '?', with the option's value in optopt |
| `GetOptResults.AbbreviationReads` | agent/src/platform/getopt.cpp:17-32 | A name that selects one row only, by equality or as its only prefix, is read as that row, with its value from behind the equals sign or from the next word |
| `GetOptResults.UnknownShort` | agent/src/platform/getopt.cpp:125-135 | A character the option string does not list gives '?' with the character in optopt, and the rest of its word is skipped |
| `GetOptResults.MissingShortArgument` | agent/src/platform/getopt.cpp:138-156 | A short option whose argument is missing at the end of argv gives ':' or '?' like a long one, with the character in optopt |
| `ConfigSummary.JoinList` | agent/src/diagnostic_service.cpp:50-57 | The printing loop joins the items with commas |
| `ConfigSummary.Summarize` | agent/src/diagnostic_service.cpp:59-73 | Written field by field, the summary is the eleven fields joined by blanks |
| `ConfigSummary.SummaryIsSpelled` | agent/src/diagnostic_service.cpp:59-73 | The fields by name, with on and off for the switches |
| `ConfigSummary.ParseApplied` | dashboard/src/hooks/useAgentConfig.ts:6-26 | The parsing loop fills the form from the last field of each key; counts that are missing or empty are 4 and 200, and a switch is on unless its field says off |
| `ConfigSummary.DiagnosticService.Reconfigure` | agent/src/diagnostic_service.cpp:144-185 | The stored configuration has the lists of the request, its numbers if positive and otherwise 4 and 200, its switches or on, and the other two fields at their defaults; the reply is its summary |
| `ConfigSummary.DiagnosticService.GetConfig` | agent/src/diagnostic_service.cpp:187-198 | The reply is the summary of the stored configuration |
| `ConfigSummary.DiagnosticService.LoadAndSave` | dashboard/src/hooks/useAgentConfig.ts:62-76 | Loading the form and saving it unchanged is the round trip below |
| `ConfigSummary.TokensOfJoin` | dashboard/src/hooks/useAgentConfig.ts:8-11 | Splitting on white space inverts joining words with blanks |
| `ConfigSummary.FieldMapReads` | dashboard/src/hooks/useAgentConfig.ts:8-11 | Fields of different keys are read back under their keys |
| `ConfigSummary.SplitOfJoin` | dashboard/src/hooks/useAgentConfig.ts:62-62 | Splitting on commas inverts joining |
| `ConfigSummary.ListRoundTrip` | dashboard/src/hooks/useAgentConfig.ts:62-67 | A list of clean items survives printing and splitting |
| `ConfigSummary.SummaryReads` | agent/src/diagnostic_service.cpp:59-73 | With clean lists every field of a summary is read back under its key |
| `ConfigSummary.FormShowsConfig` | dashboard/src/hooks/useAgentConfig.ts:6-26 | With clean lists the form shows the configuration |
| `ConfigSummary.RoundTripIsClean` | dashboard/src/hooks/useAgentConfig.ts:62-76 | Whatever was printed, what comes back has clean lists and positive numbers |
| `ConfigSummary.CleanRoundTrip` | agent/src/diagnostic_service.cpp:144-185 | A configuration with clean lists and positive numbers comes back unchanged but for the two fields not in the summary |
| `ConfigSummary.RoundTripIff` | agent/src/diagnostic_service.cpp:153-183 | It does so exactly when every list item is non-empty and free of commas and white space and both numbers are positive |
| `Ingest.InsertKeys` | collector/src/storage/timescale_storage.cpp:386-428 | After inserting, the table holds the old rows unchanged and the keys of the batch, each offset by its position |
| `Ingest.ReinsertIsNoOp` | collector/src/storage/timescale_storage.cpp:366-369 | Inserting rows that are all there changes nothing |
| `Ingest.RedeliveryIsIdempotent` | collector/src/storage/timescale_storage.cpp:366-369 | Redelivering a batch with the same timestamp changes nothing |
| `Ingest.RedeliveryIsSkippedIff` | collector/src/metrics_service.cpp:40-48 | Direct mode reads the clock for each delivery: a batch stored under t1 and delivered again under t2 is skipped if and only if t1 = t2 |
| `Ingest.FreshBatchInsertsAll` | collector/src/storage/timescale_storage.cpp:393-395 | The position offset keeps equal metrics apart: into a free stretch of time all rows go in, each under its time, agent, check type, target and sequence number |
| `Ingest.Storage.InsertMetrics` | collector/src/storage/timescale_storage.cpp:343-437 | A batch is stored whole exactly when it fits one statement; a longer one leaves its first batch_size rows and fails, since a flush clears the statement header |
| `Ingest.Storage.Flush` | collector/src/storage/timescale_storage.cpp:365-388 | One statement inserts its rows or none |
| `Ingest.PiecesAreThePrefix` | collector/src/metrics_service.cpp:219-245 | The batches handed on are consecutive pieces that make up a prefix of the stream |
| `Ingest.PiecesAreBounded` | collector/src/metrics_service.cpp:195-223 | None is empty or longer than 500 |
| `Ingest.MetricsService.StreamMetrics` | collector/src/metrics_service.cpp:195-256 | For every stream and pattern of failures accepted + rejected is the number read; the pieces before the first that is not stored whole are in the table and accepted, the rest is rejected; with statements of at least 500 rows and a working database every metric is stored |
| `Ingest.MetricsService.IngestBatch` | collector/src/metrics_service.cpp:32-48 | A piece of the stream is stored whole, or the beginning that one statement takes, or nothing |
| `Ingest.MetricsService.ReadPieces` | collector/src/metrics_service.cpp:219-237 | The read loop hands on full batches until one is not stored or the stream ends |
| `Ingest.WorkingStreamNeverStops` | collector/src/metrics_service.cpp:195 | Pieces fit a statement of at least 500 rows, so a cleared header is never missed and a working database stops no stream |
| `Charts.PickBucketMs` | dashboard/src/lib/derive.ts:34-55 | The bucket is the picked step for the window and the cadence of the metrics |
| `Charts.PickedIsNarrowest` | dashboard/src/lib/derive.ts:34-55 | That step is the narrowest of the fifteen that is no less than the cadence and covers the window with 360 of it, or 3600000 when none is |
| `Charts.FindCadence` | dashboard/src/lib/derive.ts:35-52 | Grouping the times of successes, sorting, collecting and sorting gaps, and picking one computes the cadence |
| `Charts.CadenceIsQuartile` | dashboard/src/lib/derive.ts:50-52 | The cadence is one of the gaps between successes of one series, and their upper quartile |
| `Charts.NoGapsNoCadence` | dashboard/src/lib/derive.ts:52 | Without any gap the cadence is 1000 ms |
| `ChartValues.GapsAreDistances` | dashboard/src/lib/derive.ts:35-49 | The positive gaps among which it is chosen are exactly the distances between neighbouring successes of one series |
| `Charts.GridHolds` | dashboard/src/lib/derive.ts:73-82 | The grid covers the bucket of every metric, and both ends are multiples of the bucket |
| `Charts.GridIsTight` | dashboard/src/lib/derive.ts:71-82 | Both ends of the grid are buckets of metrics or of the ends of the range |
| `Charts.GridOfFewer` | dashboard/src/lib/derive.ts:117-129 | The grid of the successes lies inside the grid of all metrics |
| `Charts.OutcomesAddUp` | dashboard/src/lib/derive.ts:141-174 | Over a grid that covers the metrics, ok and fail counts add up to the number of metrics |
| `Charts.BuildOutcomeRows` | dashboard/src/lib/derive.ts:141-174 | One row for each consecutive multiple of the bucket from the least to the greatest, with the counts of its bucket; the counts add up to the metrics |
| `ChartValues.OutcomeRowsCount` | dashboard/src/lib/derive.ts:141-174 | The i-th row has the number of successes, and of failures, among the metrics whose time lies in its bucket |
| `Charts.BuildBucketedRows` | dashboard/src/lib/derive.ts:62-115 | One row for each bucket, with exactly the series that have a value in it and the rounded mean of those values |
| `ChartValues.ValuesAreSamples` | dashboard/src/lib/derive.ts:74-87 | The values averaged are those of the series whose time lies in the bucket, each as often as it occurs |
| `ChartValues.RoundedMeanIsNear` | dashboard/src/lib/derive.ts:96-98 | The number shown is a whole number of thousandths, less than half of one below and at most half of one above the mean |
| `ChartValues.RoundedMeanIsBetween` | dashboard/src/lib/derive.ts:96-98 | It lies between the rounded values of any bounds of the values |
| `Charts.ChartRowsHaveOutcomes` | dashboard/src/components/charts/MetricsChart.tsx:64-75 | Every chart row finds an outcome row at its own time |
| `Charts.ChartIsBounded` | dashboard/src/components/charts/MetricsChart.tsx:58-63 | A window whose metrics lie inside it gives at most 361 rows for any bucket at least a 360th of it |
| `Charts.PickedChartIsBounded` | dashboard/src/components/charts/MetricsChart.tsx:58-63 | For windows up to 1,296,000 s, whose metrics lie inside them, the picked bucket gives at most 361 rows |

## Left out

- gRPC, HTTP, Kafka, SQL, SQLite, TLS and packet capture: their results are inputs of the models, and tables are maps or sequences.
- The bodies of probes and commands, notifiers, templates and JSON in and out: they are input and output, or formatting. Rules arrive parsed, so an empty rule id has already been refused.
- Failover, interval back-off, backpressure, heartbeats and the agent registry: they decide when the loop sends, and the model lets it send at any time.
- Metric sequence numbers and the timing of probe cycles: the delivery model gets its batches at any moment.
- At-least-once delivery through the Kafka consumer: it depends on the commit rules of the library.
- Overflow of 64-bit times and of 32-bit counters: integers are unbounded, except for the unsigned subtraction in `DiskBuffer::Trim`, whose wrap-around is modelled.
- Floating point: metric values, thresholds and chart values are reals, so NaN and rounding are not modelled. The rebasing statement divides integers, which is modelled as it is.
- Slots.ClaimRepeatsIff: requires an interval above 2000 ms, which the 60 s minimum of the HTTP endpoint gives.
- ScheduleRuns.ClaimedAtMostOnce: is about claims that advance, which early claims of an aligned slot do not; the condition is exact by Slots.ClaimAdvancesIff.
- SchedulerTicks.Scheduler.Loop: assumes answering storage and a schedule nobody edits meanwhile, and leaves out the dispatching that follows a claim, which is the subject of the Dispatcher module.
- SchedulerTicks.SlotIsClaimedIff: is about a next_run on the grid; an unaligned first run can be claimed early and then be followed by a slot before it.
- Dispatcher.CommandScheduler.StartThreads: what follows a Start that overwrites threads not yet joined is not modelled, since the process ends or races there.
- Dispatcher.InvHolds: its events allow an offer at any time while the loop runs, so it covers more runs than the code has.
- One command per agent across processes, and commands sent outside the scheduler: the code does not provide it.
- AlertKeys.SplitInvertsIff: a key without separators, which never arises, is split as the code does after a failed search, but nothing is promised about it.
- AlertVerdicts.FiringIffLastViolated: assumes distinct rule ids and ids without the separator, since states are shared by keys; rules loaded from a file are not checked for either.
- AlertMeaning.ProbeVerdict: is, like the lemmas beside it, about such rules and agents.
- AlertManagement.AlertManager.Evaluate: the early return on an empty rule set is read under the lock, where the code reads it before.
- Delivery.InvHolds: batches are told apart by their ticket, the order in which they were produced; their contents are not modelled.
- AgentLoop.Agent.Cycle: probe cycles end only between passes here, while the delivery theorems let them end between any two moves.
- DnsResolver.KeyIdentifiesIff: is about host and service names without the key separator; DnsResolver.KeysAgreeIff says what the key tells apart for all names.
- DnsResolver.SingleFlightIff: is about runs without Clear, which empties the in-flight table under lookups that go on.
- DnsResolver.Resolver.CheckTables: the wait of a caller on its pending lookup is two events of the model, collecting and giving up, and not a method.
- Liveness of the probe cycle under fair scheduling: the lost wake-up makes it false; ForkJoinProgress.CanFinishIff says from where the end can be reached.
- ForkJoinProgress.CanFinishIff: is about a pool with a worker, which the constructor of the pool sees to.
- ForkJoin.WakeupIsLostIff: is about runs without spurious wake-ups, which would end the wait.
- ForkJoin.Cycle.SubmitNext: the pool is not stopped during a cycle, and tasks do not throw.
- GetOpt.Parser.GetOptLong: diagnostics are not modelled, nor is a missing table of long options, which the agent never passes.
- GetOpt.Parser.ParseAll: a row whose value is -1 would end the caller's loop early; the model ends it only where the options end.
- ConfigSummary.RoundTripIff: reads numbers as decimal integers, the only ones a summary prints, and counts the white space of ECMAScript.
- The collector's forwarding of a configuration between dashboard and agent: the model hands the request over as it is.
- Ingest.MetricsService.StreamMetrics: is the direct mode; with Kafka a batch is handed to a producer that takes any number of rows, and the alert evaluation that follows is the subject of the alert modules.
- Ingest.RedeliveryIsSkippedIff: is about a batch whose first sequence number is its own and new to the table for this agent.
- Ingest.Storage.InsertMetrics: leaves out reconnecting and the statistics; the text of the values is not modelled.
- Charts.FindCadence: sorting is the specification of a library call, an insertion sort.
- Labels for rows and series, the TLS and NTP series and the React components: formatting.
