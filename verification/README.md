# chalert: a model and its proofs

chalert evaluates SQL alerting rules against ClickHouse on a schedule, keeps
each alert instance in a state machine (pending, firing, resolved), sends what
fires or resolves to Alertmanager, and keeps two tables: `alert_state`, where
the last write of a key wins, and the append-only `alert_history`. Rules are
reloaded while it runs, and state is carried over graceful restarts.

This project models that engine in Dafny and proves what its state machine,
its retry queue, its reloads and restarts, and its parallel evaluator keep over
whole runs. `dafny verify dfyconfig.toml` checks it all.

## Layers

- **One rule.** `Alerts` has the vocabulary, `RuleStep` the table of what an
  evaluation does to one instance and the map-level functions built on it,
  `AlertingRules` the rule object whose `Exec` works through the map in several
  passes in arbitrary order, proved equal to those functions; `Evaluations`
  says without them how an evaluation ends and what it makes of each field of
  each instance.
- **Runs of one rule.** `RuleRuns` (why an instance fires, why it resolves,
  what each success leaves), `Memory` (how many instances are kept), `Retention` (how
  long a resolved one is sent), `Sending` and `Notifier` (what is sent, how often,
  and before it would expire), `LabelSets` (what identifies an instance).
- **Tables and restarts.** `StateStore` has the two tables with calls that may
  fail, `ActiveViews` compares rules by what is active in them, `Restart` a rule
  with itself after a graceful restart.
- **Retirements.** `Retirements` has the rows written for rules that stopped
  running, `RetiredRows` their order and stamps (`Selections` has the places a
  pass picks), `RetirementRuns` their conservation under any interleaving, and
  `RetirementQueues` the queue object, each locked step of which is one action
  of such a run.
- **The system.** `Lifecycle` has the running system as steps, `NoOrphans` the
  promise that no key is left firing with nothing to resolve it, and exactly
  when each failing call breaks it, `Survival` what restarts do to retirements,
  `SharedRules` how two groups with one rule ID break the promise.
- **Groups.** `RuleSets` and `Groups` have groups of rule objects: sequential
  and concurrent evaluation, live updates, retirement and restoration;
  `Scheduler` the concurrent evaluator as interleaved steps and
  `ConcurrentGroups` what its schedules come to; `GroupRuns` and `Processes`
  show that what the group objects do on a tick, an update, a removal, a launch,
  a stop and a start is a run of the system of `Lifecycle`, that the run is
  clean when the calls it depends on land, and that the no-orphan promise
  carries over it; `Slots` and `Registries` put all groups of a process beside
  each other, from a start over ticks and reloads to a stop.
- **Configuration.** `GroupKeys` (the text a group's ID is hashed from, and the
  groups that share one), `Reloads` and `Snapshots` (the registry, updates handed
  over to running loops, and the skipped check), `RuleIdentities` (rule IDs),
  `Substitution` (environment values in rule files), `ByteStrings` (sorted keys,
  separators).

## Conventions

- Time is a natural number of milliseconds; 0 is the zero time, "never".
- Rule and instance IDs, checksums and fingerprints stand for what is hashed:
  hashes are taken as collision-free. Where an encoding is itself the subject
  (`LabelSets.HashLabels`, `Snapshots.Fingerprint`, `GroupKeys.KeyOf`,
  `RuleIdentities.RuleConfig.Described`) it is modelled byte by byte.
- A query panics, fails or answers with any rows. Every store call may fail,
  and then changes nothing; a load that fails may have read some of the rows.
- Loops over Go maps pick their next key arbitrarily, and the proofs hold for
  every order.
- A rule's instances are values in its map field: the source never lets a
  pointer to one escape the rule.

## Where the code differs from its comments

- `rule/rule.go:382` says a firing alert is sent first and then by the resend
  delay; the first send's stamp equals FiredAt, so the very next evaluation
  sends again (`Sending.SendRateIsTight`).
- `rule/rule.go:374` says resolved alerts are sent once; they are sent by every
  evaluation during retention (`Sending.ResolvedIsSentEachTime`).
- `rule/rule.go:518` speaks of active instances; GetAlerts returns resolved
  ones too.
- `rule/rule.go:154` says an evaluation fails when its query does or it panics;
  one that exceeds its limit or repeats a label set is reported as failed too.
- `statestore/clickhouse.go:162` is meant for recovery of what was active; rows
  of deleted instances are never overwritten, so it can return more than was
  active at shutdown (`Restart.RestartIsFaithful`,
  `Restart.StalePendingFiresEarly`).
- `rule/retire.go:23-25` says the restart finds unwritten retirements unclaimed;
  a rule that carries their ID again claims them instead, and has them back
  firing (`Restart.RetirementComesBack`).
- `rule/group.go:480` says an update is sent to the running loop; it is applied
  after the send returns, so a reload right behind it can read the old checksum
  (`Reloads.LagLosesAnUpdate`).
- `rule/group.go:132-138` hashes a group's file, name and interval as its ID,
  the last two with nothing between them: "tier1" every 5 minutes and "tier"
  every 15 minutes, in one file, are one group to the registry, which runs the
  later one (`GroupKeys.TierSwallowsTier1`).
- `config/config.go:204-222` hashes a rule's name and labels as its ID with
  nothing between name and labels: alert "a" with label b="bx" and alert "ab"
  with b="x", of one query, are one rule, and a group that has both is refused
  (`RuleIdentities.NameRunsIntoLabels`).
- `config/config.go:173-174` keeps rule IDs apart within a group only; two groups
  that carry one rule share a row of `alert_state`
  (`SharedRules.SharedRuleOrphans`).

## Model

| member | source | states |
|---|---|---|
| `AlertingRules.AlertingRule.Exec` | rule/rule.go:226-369 | the rule's map after one evaluation is `Next` of the map before, and the returned list is exactly the instances due, each once; on each of the five failures the error is the one `VerdictOf` names and the map is untouched, partly updated (duplicate labels) or empty (too many active) |
| `AlertingRules.AlertingRule.Transition` | rule/rule.go:306-350 | after the rows are absorbed: the limit check on the counted active instances, then either an empty map and an error or the settled, stamped map and its sends |
| `AlertingRules.AlertingRule.PurgeResolved` | rule/rule.go:255-260 | exactly the resolved instances past 15 minutes are deleted, whatever the iteration order |
| `AlertingRules.AlertingRule.AbsorbRows` | rule/rule.go:262-304 | reports a repeated label set exactly when there is one, having applied exactly the rows before the repetition |
| `AlertingRules.AlertingRule.SettleAlerts` | rule/rule.go:306-342 | every instance is settled by itself, and the counter equals the number of pending and firing instances left |
| `AlertingRules.AlertingRule.SettleOne` | rule/rule.go:308-341 | one instance is deleted, kept firing, resolved or promoted, and counted exactly if it stays active |
| `AlertingRules.AlertingRule.AlertsToSend` | rule/rule.go:375-398 | stamps exactly the due instances and returns one copy of each |
| `AlertingRules.AlertingRule.GetAlerts` | rule/rule.go:518-526 | lists every instance exactly once |
| `AlertingRules.AlertingRule.Restore` | rule/rule.go:543-560 | brings back exactly the pending and firing instances that carry the rule's ID |
| `AlertingRules.LastTakenWins` | rule/rule.go:546-560 | of the pending and firing instances with the rule's ID, the last of each identity is what restoring leaves |
| `AlertingRules.NoneTakenStays` | rule/rule.go:546-560 | an identity of which there is none stays as it was |
| `Evaluations.VerdictIsExact` | rule/rule.go:226-348 | exactly how an evaluation ends: it panics or fails with its query; has too many rows when a positive limit is below their number; repeats a label set when two rows have one identity; is cleared when more instances than a positive limit have a row or are kept firing; and succeeds otherwise |
| `Evaluations.RowCreates` | rule/rule.go:286-304 | a row of an unknown identity, or of one resolved more than 900000 ms ago, makes a new instance, field by field: active since now, firing at once and sent if there is no `for`, else pending |
| `Evaluations.RowReactivates` | rule/rule.go:274-285 | a row of an instance resolved at most 900000 ms ago makes it pending since now, or firing without a `for`, with its resolve time and keep-firing clock cleared and the row's value |
| `Evaluations.RowOfPending` | rule/rule.go:274-341 | a row of a pending instance takes its value over and fires it exactly when `for` has passed since ActiveAt |
| `Evaluations.RowOfFiring` | rule/rule.go:274-285 | a row of a firing instance takes its value over, stops its clock and changes nothing else but the send stamp |
| `Evaluations.NoRowOfActive` | rule/rule.go:308-330 | without a row nothing new appears, a pending instance is deleted, and a firing one is kept exactly while its clock is below keep_firing_for, else resolved now |
| `Evaluations.NoRowOfResolved` | rule/rule.go:255-260 | without a row a resolved instance is kept by a success exactly until 900000 ms after it was resolved |
| `Evaluations.SentIsExact` | rule/rule.go:375-398 | a success returns exactly its resolved instances and those firing ones that were not sent since they fired or were sent ResendDelay ago, as it leaves them, stamped now and with the group's interval |
| `Evaluations.OtherExits` | rule/rule.go:239-348 | a query that panics, fails or has too many rows leaves every instance; too many active ones leave none; nothing is sent |
| `Evaluations.RepeatedLabels` | rule/rule.go:255-304 | with a repeated label set exactly the rows before the repetition are taken in, without firing any, and of the instances without such a row exactly those resolved more than 900000 ms ago go |
| `RuleStep.PassesAreStep` | rule/rule.go:255-342 | the three passes over the map amount to one table lookup per key from its old instance, its row, the time, `for` and keep_firing_for |
| `RuleStep.NextByKey` | rule/rule.go:226-369 | an evaluation acts on each key by itself: no other instance matters beyond the verdict, on error exits too |
| `RuleStep.StopsFiringByBranch` | rule/rule.go:306-348 | a firing instance stops firing exactly when the limit clears the map, or a success has no row of it and it is not within keep_firing_for |
| `RuleStep.RepeatEndsPrefix` | rule/rule.go:265-272 | where a duplicate label set ends the row pass does not depend on the rows after it |
| `RuleStep.DistinctPrefixIsLongest` | rule/rule.go:265-272 | the rows an evaluation applies are the longest prefix without a repeated label set: all of them exactly if none repeats, and else the row after the prefix repeats one in it |
| `RuleStep.NextOwned` | rule/rule.go:226-369 | every evaluation keeps each instance under its own ID and with its rule's ID |
| `Alerts.EnumerationIsExact` | rule/rule.go:518-526 | a listing built in any iteration order holds every instance, nothing else, and nothing twice |
| `RuleRuns.RunsAreStories` | rule/rule.go:226-369 | every run gives every key a chain of single-key steps |
| `RuleRuns.FiringIsSound` | rule/rule.go:265-342 | over any run, failed and partly applied evaluations included: a firing instance waited at least the `for` in force when it fired, and every successful evaluation from the one that made it pending through the one that fired it had its row |
| `RuleRuns.EpisodeIsJustified` | rule/rule.go:274-341 | the same for pending instances and for every point of a run |
| `RuleRuns.ResolutionIsSound` | rule/rule.go:316-330 | with keep_firing_for held fixed, an instance is resolved only at the end of an unbroken stretch without any row of it that began with a success at least keep_firing_for earlier; a row restarts the clock even in an evaluation later aborted |
| `RuleRuns.ClockIsJustified` | rule/rule.go:285-325 | a running keep-firing clock always shows the time of the success that began the absence |
| `RuleRuns.SuccessSettles` | rule/rule.go:255-348 | with nondecreasing times, after every success a pending instance matched and is younger than `for`, a firing one matched with its clock stopped or is within its keep window, and a resolved one is unmatched and within retention |
| `RuleRuns.SuccessIsWithinLimit` | rule/rule.go:306-348 | a success under a positive limit leaves at most that many active instances |
| `RuleRuns.TimesAreBounded` | rule/rule.go:277-339 | over a run with nondecreasing times no stored time is later than the latest evaluation |
| `Memory.MemoryIsBounded` | rule/rule.go:213-348 | a rule that started empty, with limit L and evaluations at least I apart, holds at most L * (15 min / I + 2) instances after every success, resolved ones included |
| `Memory.BoundedKept` | rule/rule.go:255-348 | each evaluation, failed ones included, keeps: at most L firing, at most L resolved at any one time |
| `Memory.ResolvedInWindow` | rule/rule.go:255-260 | what is retained was resolved by one of the last 15 min / I + 1 evaluations |
| `Sending.EveryTransitionIsSent` | rule/rule.go:327-341 | over any run with nondecreasing times, every move to firing and from firing to resolved in a success is in that evaluation's list, in its new state |
| `Sending.SendsMeansSent` | rule/rule.go:375-398 | an instance is in the returned list exactly when its settled form is due, and the copy is the kept instance with the group's interval |
| `Sending.SendRateIsBounded` | rule/rule.go:381-389 | a firing episode of length T on an advancing clock is sent once if T is 0 and else at most 2 + (T - 1) / ResendDelay times, so never more than 2 + T / ResendDelay |
| `Sending.SendRateIsTight` | rule/rule.go:383-386 | for every ResendDelay and every number of sends some episode reaches that bound, because the first send's stamp equals FiredAt and the next evaluation sends again |
| `Sending.SendsAreSpaced` | rule/rule.go:381-389 | after the second send of an episode each send moves the stamp on by at least ResendDelay |
| `Sending.SendsComeInTime` | rule/rule.go:381-389 | with successes at most g apart, consecutive sends of a firing instance are less than ResendDelay + g apart |
| `Sending.ResolvedIsSentEachTime` | rule/rule.go:390-395 | over any run at nonzero times, an instance found resolved after a success is in that success's list, resolved, so every success during retention sends it again |
| `Retention.ResolvedIsSentFor15Minutes` | rule/rule.go:213-260 | over any run: an instance resolved at r that has no row from then on is sent by a later success exactly if that comes at most 900000 ms after r and no evaluation in between cleared the map; it is then sent resolved, as of r |
| `Notifier.BuildPayload` | notifier/alertmanager.go:192-227 | one entry for each alert that is not pending, in order, with its labels and ActiveAt: firing with an end 4 intervals (or 240000 ms) from now, or resolved with an end when it was resolved |
| `Notifier.NothingSentIsDropped` | notifier/alertmanager.go:193-224 | every alert an evaluation returns gets an entry |
| `Notifier.NoPrematureAutoResolve` | notifier/alertmanager.go:202-210 | on one clock, if ResendDelay + g is within the auto-resolve delay, a firing instance's next send comes before the previous one's EndsAt |
| `StateStore.RowRoundTrip` | statestore/clickhouse.go:119-207 | an instance written to alert_state and read back is unchanged but for LastSent, `for` and the interval, which the table does not hold |
| `StateStore.Store.Save` | statestore/clickhouse.go:108-160 | all rows of a batch land, the last row of a key winning, or none does; an empty batch succeeds |
| `StateStore.LastRowWins` | statestore/clickhouse.go:120-152 | after a batch the table holds, for each key, its last instance field by field: the state's name, and NULL for each time that is zero |
| `StateStore.OthersAreLeft` | statestore/clickhouse.go:108-160 | a key that has no instance in a batch is left as it was |
| `StateStore.Store.LoadActive` | statestore/clickhouse.go:163-212 | lists exactly the pending and firing rows, each once; a read that breaks off returns those read so far, each once |
| `StateStore.LoadedAsSaved` | statestore/clickhouse.go:163-212 | exactly the rows whose state reads pending or firing are active, each with the fields saved and NULL times as zero |
| `StateStore.Store.RecordHistory` | statestore/clickhouse.go:215-250 | appends, in order, one row per instance with its key, labels, state and value and the given stamp, or nothing |
| `Restart.RestartIsFaithful` | cmd/chalert/main.go:414-431 | over a graceful stop and start of the system a rule gets back the same pending and firing keys with the same state and times exactly if alert_state held no stale active row of it and every instance of its ID that a retirement still queues is one it holds firing since the same times |
| `ActiveViews.SameActiveKept` | rule/rule.go:226-369 | every evaluation, on success and error exits alike, keeps two rules with the same active view alike |
| `ActiveViews.SameVerdict` | rule/rule.go:239-348 | rules with the same active view get the same verdict from the same answer |
| `Restart.RestartIsInvisible` | rule/rule.go:543-560 | then no later run of evaluations tells the restarted rule from the original by verdict or active view |
| `Restart.BackByKey` | cmd/chalert/main.go:201-243 | what a restart gives a rule back for each key: the last queued firing copy, else the instance it held, else a stale active row |
| `Restart.RetirementComesBack` | cmd/chalert/main.go:421-424 | a rule dropped and added back by reloads while its resolved rows are unwritten holds nothing before a restart and its retired instances firing after it |
| `Restart.StalePendingFiresEarly` | statestore/clickhouse.go:163-212 | a pending instance deleted after a restart is never saved as gone: a second restart brings it back with its first ActiveAt and it fires before `for` has elapsed since it was absent |
| `RetirementQueues.Queue.Append` | rule/retire.go:48-64 | queues one write stamped `at` holding exactly the firing instances, each inactive and resolved at `at` but otherwise unchanged, or nothing when there are none or no store |
| `Retirements.SubmissionIsStamped` | rule/retire.go:48-63 | what is queued for a list: one write of its firing instances in the order of the list, its stamp and each resolve time being `at`; nothing if none fires |
| `RetirementQueues.Queue.Resolve` | rule/retire.go:48-66 | queues and flushes: what is left, the history and the saved state are given by the fate of each write; nothing at all happens when no instance fires |
| `RetirementQueues.Queue.Flush` | rule/retire.go:69-95 | keeps exactly the failed writes in order, appends the landed rows in order, and saves inactive the instances whose save lands too |
| `RetiredRows.LoggedInOrder` | rule/retire.go:79-87 | the history rows of the writes that land are theirs in order, each stamped with its own write's time, and no others |
| `RetiredRows.SavedIsStamped` | rule/retire.go:86-91 | a key is saved inactive, resolved at the stamp of the last write of it that landed and was saved |
| `RetiredRows.UnsavedIsLeft` | rule/retire.go:86-91 | a key of which no write landed and was saved keeps its saved row |
| `RetiredRows.FlushKeepsPlaces` | rule/retire.go:79-93 | the writes kept are exactly those that failed and the ones landed exactly the others, each in the order queued |
| `RetirementQueues.Queue.Unwritten` | rule/retire.go:99-110 | the instances of the unwritten retirements, as they were firing, in order |
| `RetiredRows.AwaitedInOrder` | rule/retire.go:99-110 | these are the instances of each write in turn, and no others |
| `RetirementQueues.Queue.Pending` | rule/retire.go:113-125 | the number of unwritten resolved rows, which is rows submitted less rows written |
| `RetirementRuns.Conservation` | rule/retire.go:48-95 | under any interleaving of appends and flushes with any failures, each submission is in exactly one of the queue and the history, once, unchanged, and the queue is in submission order |
| `RetirementQueues.Queue.Conserved` | rule/retire.go:48-95 | at every moment between the queue's locked steps, what it holds and what it has written are the run of those steps, so the conservation law applies to the object itself |
| `RetirementRuns.PendingCountsUnwritten` | rule/retire.go:112-125 | the pending count equals rows submitted minus rows written |
| `Lifecycle.FlushByKey` | rule/retire.go:69-95 | a flush leaves a queued key queued or lands it, and every row it writes is a resolved one |
| `NoOrphans.NoOrphanedFiring` | rule/retire.go:12-26 | over every run from the first start of evaluations, flushes with failing retirement writes, reloads, graceful stops and starts: a key whose latest history row is firing is held firing by a live rule, by a pending retirement, or by the saved state while stopped |
| `NoOrphans.EveryStepKeeps` | cmd/chalert/main.go:201-431 | each single step keeps that promise |
| `NoOrphans.EveryRunKeeps` | rule/retire.go:12-26 | from any point at which the promise holds, every run of clean steps keeps it |
| `NoOrphans.StopsFiringIsSent` | rule/rule.go:306-398 | an instance that stops firing without the limit clearing the map is in the evaluation's list, resolved |
| `NoOrphans.OverLimitOrphans` | rule/rule.go:344-348 | when the limit clears the map, the promise survives exactly if each instance of the rule left firing in the history also awaits a pending retirement |
| `NoOrphans.LostRecordOrphans` | rule/group.go:227-233 | when an evaluation's history write fails, the promise survives exactly if each firing instance that takes a branch ending it, and is still firing in the history, also awaits a pending retirement |
| `NoOrphans.FailedSaveOrphans` | cmd/chalert/main.go:424-430 | when the final save fails, the promise survives exactly if earlier saves hold firing every key the history shows firing |
| `NoOrphans.FailedLoadOrphans` | cmd/chalert/main.go:201-205 | when the load at start fails, the promise survives exactly if every key the history shows firing is among the firing rows read before it broke off |
| `NoOrphans.StopByKey` | cmd/chalert/main.go:414-431 | what a graceful stop saves for each key: firing if a retirement awaits it, else its live state, else nothing |
| `NoOrphans.StartByKey` | cmd/chalert/main.go:201-247 | a loaded firing key goes to the rule that carries its ID, or to the queue when none does, never both; what is loaded firing was saved firing, and a load that succeeds has all that was |
| `SharedRules.OneFiresOnePends` | config/config.go:175-200 | with one rule in two groups, the one that began earlier holds an instance firing when the other still holds it pending |
| `SharedRules.LastSavedDecides` | cmd/chalert/main.go:414-431 | after a stop and a start a key is held firing exactly if the instance of it saved last was firing; with a pending one saved last, a key left firing in the history has no holder |
| `SharedRules.SharedRuleOrphans` | cmd/chalert/main.go:414-431 | those two groups, stopped with the pending instance saved after the firing one, leave the firing history row without a holder |
| `Survival.RetirementSurvives` | rule/retire.go:21-26 | across any run of stops and starts that save and load, whatever history writes fail and whatever limits are exceeded, in which no rule carries its ID again, a retired key whose resolved row is unwritten is still queued, or saved firing while stopped |
| `Survival.OwedUntilWritten` | rule/retire.go:79-110 | each such step leaves an owed key owed or writes its resolved row |
| `Survival.BothWritesSettle` | rule/retire.go:79-92 | a flush settles a key exactly if no rule holds it firing, every retirement of it still queued is written, and, should the saved state show it firing, one of them is saved inactive; earlier flushes count through what is still queued and saved |
| `Survival.SettledForGood` | rule/retire.go:24-26 | from then on no restart or reload resolves the key again until an evaluation fires it anew, whatever store calls fail |
| `Scheduler.SchedulesAreSound` | rule/group.go:304-334 | at every point of every schedule: at most `concurrency` rules hold a slot, the channel is not closed before every rule finished, and each rule that reported is in the channel or received exactly once, panicking rules included |
| `Scheduler.SendNeverBlocks` | rule/group.go:304-328 | a rule about to report always finds room in the results channel |
| `Scheduler.NeverStuck` | rule/group.go:307-338 | until the results are collected some move is possible |
| `Scheduler.SchedulesAreShort` | rule/group.go:307-338 | no schedule is longer than the work at its start |
| `Scheduler.ConcurrentRefinesSequential` | rule/group.go:267-354 | whatever the schedule, gathering given outcomes in the order received gives the same alerts and evaluations, as multisets, as gathering them in rule order |
| `ConcurrentGroups.ConcurrentRulesAreEvaluated` | rule/group.go:307-338 | with each Exec run inside its goroutine on the map found there, every collected schedule has evaluated each rule exactly once from what it held at the start |
| `ConcurrentGroups.ConcurrentMatchesSequential` | rule/group.go:267-354 | a concurrent and a sequential evaluation of the same rules leave the same maps and give the same alerts and evaluations, as multisets |
| `Groups.Group.ExecRecovered` | rule/group.go:359-384 | one rule's outcome: its map is `Next` of what it held, a panic or an error reports no alerts and its reason |
| `Groups.Group.ExecRules` | rule/group.go:267-290 | every rule is evaluated from what it held, failures stop none of the rest, and alerts and evaluations are gathered in rule order, exactly one evaluation a rule |
| `Groups.Group.ExecConcurrently` | rule/group.go:292-353 | what any schedule comes to: every rule evaluated from what it held, alerts and evaluations taken in one and the same order, each rule once |
| `Groups.Group.EvaluateAndRecord` | rule/group.go:192-233 | sequential or concurrent as the group's concurrency says; one history batch for all rules' sends in the order they were taken, stamped with the evaluation's start, or none |
| `Groups.Group.Evaluate` | rule/group.go:166-238 | retirements are flushed first, even with no rules; every rule is evaluated at the tick's time less eval_delay, if there is one; then their history is written |
| `Groups.EachEvaluated` | rule/group.go:267-290 | each rule's own evaluation can be read off the group's |
| `Groups.EvaluationChanges` | rule/rule.go:255-342 | what an evaluation makes active, fires or resolves carries that evaluation's time as ActiveAt, FiredAt or ResolvedAt |
| `Groups.LoggedAsEvaluated` | rule/group.go:371-384 | the evaluation log has one entry a rule: ok exactly on success, then with the number of rows its query returned, else with none and the reason |
| `Groups.KeepOrDrop` | rule/group.go:396-415 | the rules whose ID goes on are redefined in place and kept in order, the others are dropped in order and left as they are |
| `Groups.MergeRules` | rule/group.go:389-422 | afterwards the IDs are exactly the new ones with none twice, surviving IDs are the same objects with the new definitions, and only new IDs bring new objects |
| `Groups.Group.UpdateWith` | rule/group.go:389-429 | the group afterwards has the new group's settings and serves the new plan, surviving rules first; what the old rules held is the disjoint union of what the surviving and the dropped ones hold, untouched; a second update to the same plan drops and adds nothing |
| `Groups.SurvivorsAndNewcomers` | rule/group.go:396-422 | surviving and added rules make up the plan's IDs, none twice, each with the plan's definition |
| `RuleSets.SiftingSplits` | rule/group.go:396-415 | parting rules by ID parts what they hold: each side holds its share, the shares are disjoint, and together they are everything |
| `RuleSets.SiftedInOrder` | rule/group.go:396-415 | the rules kept are those whose ID goes on and the ones dropped the others, each in the order they had |
| `Groups.Group.RetireRules` | rule/group.go:442-452 | resolves exactly the instances the given rules hold firing, and does nothing without instances or a queue |
| `Groups.Group.RestoreState` | rule/group.go:486-490 | each rule is restored from the instances that carry its ID, and no other rule is touched |
| `GroupRuns.GroupEvaluationIsSteps` | rule/group.go:166-238 | a group's evaluation with its one history batch is a legal run of one evaluation step a rule, a clean one if the batch is written and no rule goes over its limit |
| `GroupRuns.AnyBatchIsSteps` | rule/group.go:336-353 | so is a batch whose results were taken in any order |
| `Processes.Tick` | rule/group.go:166-238 | what a tick does to the group's rules, the queue and the tables is a legal run of the system that touches no other rule; whatever it makes active, fires or resolves carries the tick's time less eval_delay; if the history write landed and no rule went over its limit the run is clean and the no-orphan promise carries over |
| `Processes.Update` | rule/group.go:252-257 | a live update is a clean legal run, so it keeps the promise: the dropped rules leave with their firing instances queued and flushed, the surviving keep what they hold, the added start empty |
| `Processes.Remove` | cmd/chalert/main.go:388-395 | removing a group is a clean legal run that drops all its rules and no other, so it keeps the promise |
| `Processes.Launch` | cmd/chalert/main.go:403-409 | a group started by a reload is a clean step that adds its rules, empty |
| `Processes.AllLive` | cmd/chalert/main.go:415-420 | lists every instance of every rule of every group exactly once |
| `Processes.PersistAllState` | cmd/chalert/main.go:414-431 | a graceful stop saves every live instance and every unwritten retirement as firing, or nothing, as the stop step with that fate has it; if the save landed the promise carries over |
| `Processes.UnclaimedBy` | rule/group.go:458-472 | exactly the firing instances, in order, whose rule ID no rule of the groups carries |
| `RetiredRows.UnclaimedInOrder` | rule/group.go:458-472 | these are exactly the firing ones of the loaded instances that no rule carries, in the order loaded |
| `Processes.StartUp` | cmd/chalert/main.go:201-247 | load, restore what was read, though the load broke off, into every group and resolve the unclaimed: a legal start of the system, with the load's fate, followed by a flush if anything was queued; if the load succeeded the promise carries over |
| `Processes.EachGroupIsShown` | cmd/chalert/main.go:240-244 | after a start every group holds what the system shows for its rules, so its ticks and updates go on from there |
| `Registries.StartsTogether` | cmd/chalert/main.go:240-250 | after a start all groups of the process are together: each holds what the one system shows for its rules, no two have a rule or an ID in common, and nothing else is shown |
| `Registries.TickSlot` | rule/group.go:166-262 | a tick of any running group, before, between or after the turns of a reload, is a legal run of that system and leaves every other group, and a configuration waiting to be applied, as they are |
| `Registries.StepSlot` | cmd/chalert/main.go:388-411 | so is one group's part in a reload, its removal, update or launch: a clean legal run that keeps the promise, with every other group left as it is |
| `Registries.ReloadSlots` | cmd/chalert/main.go:371-412 | a whole reload, its turns in any order in which no group takes an ID that a later one gives up, is a clean legal run of the system that keeps the promise; afterwards every group is removed, updated or running as wanted, and all are together again |
| `Registries.NextReload` | cmd/chalert/main.go:323-334 | what a reload leaves is where the next begins: the groups that run are updated, removed or left alone by it, and new ones may begin |
| `Registries.StopsTogether` | cmd/chalert/main.go:414-431 | at a stop the rules of the running groups are distinct and hold all that the system shows, as the final save needs |
| `Reloads.ReloadGroups` | cmd/chalert/main.go:371-412 | afterwards exactly the wanted IDs run, groups that share one being the one that comes last; each surviving group is the same object, handed the wanted content unless the checksum read was already that; removed ones are closed once and retired |
| `GroupKeys.KeysShared` | rule/group.go:132-138 | groups of files whose paths are free of 0xFF share an ID exactly if the file is the same and name and interval, run together, give the same text |
| `GroupKeys.DefaultInterval` | rule/group.go:70-73 | a group without an interval has the ID of the same group at the default one, and the default matters to no other |
| `GroupKeys.SharedNamesOverlap` | rule/group.go:132-138 | two groups of one file share an ID exactly if the longer name is the shorter one followed by the text the other interval begins with, the rest of which is the longer one's interval; groups of one name then have one interval |
| `GroupKeys.TierSwallowsTier1` | cmd/chalert/main.go:382-386 | "tier1" at 5m and "tier" at 15m of one file share an ID, and of the two only the later is wanted |
| `GroupKeys.EveryGroupIsWanted` | cmd/chalert/main.go:382-386 | as many groups are wanted as were parsed exactly if no two of them share an ID |
| `GroupKeys.LaterGroupWins` | cmd/chalert/main.go:382-386 | a group's content is what is wanted under its ID unless a later group shares the ID |
| `Reloads.StopRemoved` | cmd/chalert/main.go:388-395 | closes and retires exactly the running groups that are no longer wanted |
| `Reloads.UpdateOrStart` | cmd/chalert/main.go:397-411 | reads each surviving group's checksum, with or without an update still on its way, hands over the content when they differ, and starts exactly the new groups; no closed group is updated |
| `Reloads.Reloader.Reload` | cmd/chalert/main.go:269-301 | a trigger whose read, parse or ID check fails, or that is not forced and reads what is loaded, leaves the registry, its groups and the fingerprint as they are; one that fails nowhere and is forced, or whose NUL-free files changed, loads them; it leaves the group of every wanted ID running or about to run the content wanted under it exactly if it missed none; loading the same files again hands over nothing |
| `Reloads.LoadsWhenChanged` | cmd/chalert/main.go:269-297 | a trigger loads only if its read, parse and ID check succeed and it is forced or the files changed, and then always if it is forced or the files are free of NULs |
| `Reloads.SecondUpdateWaits` | rule/group.go:246-258 | a loop takes a second update only once it runs the first, and then goes on to the second |
| `Reloads.Reloader.Run` | cmd/chalert/main.go:323-334 | over every sequence of triggers, failed reads, parses and queries included, the registry holds the group IDs of the snapshot last loaded; if every update handed over is applied before the next reload reads checksums, each runs the content wanted under its ID |
| `Reloads.ReloadReachesUnlessMissed` | rule/group.go:246-258 | a reload gets a group to run what it wants exactly unless the group's loop lags, its running content is the wanted one, and another update is on its way |
| `Reloads.LagLosesAnUpdate` | cmd/chalert/main.go:397-402 | content A, then B handed over, then A loaded again before B is applied: the group goes on to B, periodic checks skip, and a forced reload puts it right |
| `Reloads.SkippedIsCurrent` | cmd/chalert/main.go:277-280 | a check skipped on an equal fingerprint has read, for NUL-free files, exactly what is loaded |
| `Snapshots.Fingerprint` | config/config.go:325-340 | the bytes hashed: each path and content in sorted order, each ended by a NUL |
| `Snapshots.FingerprintTellsApart` | config/config.go:325-340 | for NUL-free paths and contents the bytes are equal exactly if the snapshots are |
| `Snapshots.NulHidesAChange` | config/config.go:333-338 | with a NUL in a file two different snapshots give the same bytes |
| `LabelSets.BuildLabels` | rule/rule.go:402-421 | the labels are the row's with the configured ones laid over in some order and alertname last; with no interference they are the merged set, whatever the order |
| `LabelSets.LaidMoves` | rule/rule.go:407-415 | laying one configured label: nothing if its value is empty; else it is set, a different value found there moves to exported_ and its name, and every other label stays |
| `LabelSets.MergedByLabel` | rule/rule.go:402-421 | the merged set label by label: alertname is the rule's name; a configured label has its value; exported_k has the value of the row's k that a configured k displaced; any other label is the row's |
| `LabelSets.LastValueStays` | rule/rule.go:404-406 | a row's label has the last value the row gives it |
| `LabelSets.OrderShowsOnlyByInterference` | rule/rule.go:407-415 | the order in which configured labels are taken never shows exactly if no configured label is named exported_ plus another configured one |
| `LabelSets.InterferenceShows` | rule/rule.go:411-414 | with such a pair some row and two orders give different label sets |
| `LabelSets.LaidByKey` | rule/rule.go:407-415 | without interference every label of the set, at every point of the pass, is configured, moved aside, or the row's own |
| `LabelSets.MergingKeepsRowsApart` | rule/rule.go:402-421 | rows with the same label names, none of them alertname or exported_ plus a configured label, merge to equal sets, in whatever orders, only if they are equal, given that along every chain of configured labels k, exported_k, ... not starting at alertname the values are equal |
| `LabelSets.RowsStayApartIfSteady` | rule/rule.go:402-421 | merging tells such rows apart exactly if the configuration's chains have that form |
| `LabelSets.TwoRowsOneSet` | rule/rule.go:407-415 | with k and exported_k configured to different values, the rows holding either value at k merge to the same set, whichever is laid first |
| `LabelSets.HashLabels` | rule/rule.go:491-504 | the bytes hashed: each name and value in sorted order, then 0xFF |
| `LabelSets.TwoKeys` | rule/rule.go:491-504 | of two labels the lesser name comes first, each name and value followed by 0xFF |
| `LabelSets.HashInputsApart` | rule/rule.go:491-504 | label sets with the same names and values free of 0xFF hash from different bytes unless equal |
| `LabelSets.NamesAndValuesRunTogether` | rule/rule.go:498-502 | with different names the bytes can agree |
| `ByteStrings.SortStrings` | rule/rule.go:497 | the keys in sorted order |
| `ByteStrings.SortedIsOrdered` | rule/rule.go:497 | an earlier key in that order comes before a later one byte by byte |
| `ByteStrings.MarkEndsText` | config/config.go:333-338 | text free of the mark is recovered from what follows it |
| `RuleIdentities.NormalizeRuleIDs` | config/config.go:175-200 | succeeds exactly if every query can be hashed and no group holds two rules of one identity, and then every rule has the ID its query hash, name and labels give |
| `RuleIdentities.NormalizeGroup` | config/config.go:178-197 | the same for one group, with the cache holding only what the query hash answers |
| `RuleIdentities.IdentifiedApart` | config/config.go:173-196 | in a group that passes, every rule has an ID and any two have different ones |
| `RuleIdentities.ApartIsIdentifiable` | config/config.go:173-196 | and a group whose rules all can be given IDs, no two the same, passes |
| `RuleIdentities.IdsShared` | config/config.go:204-222 | with a hash that tells its inputs apart, two rules share an ID exactly if their queries hash alike, both alert or both record, and name and sorted labels, run together, read alike |
| `RuleIdentities.NamesakesApart` | config/config.go:204-222 | rules of one name and the same label names, their values free of 0xFF, share an ID only if their labels are equal |
| `RuleIdentities.NameRunsIntoLabels` | config/config.go:204-222 | alert "a" with b="bx" and alert "ab" with b="x" share an ID if they have one query, and no group with both passes |
| `Substitution.EnvSubstitute` | config/config.go:375-392 | with values free of percent signs, or of opening or of closing braces, the loop ends, with everything replaced and no complete placeholder left |
| `Substitution.OnceUsesMark` | config/config.go:387-389 | each replacement lowers the count of any of the three marks that no value holds, though the text may grow |
| `Substitution.OnceWhilePlaceholder` | config/config.go:379-386 | there is something to replace exactly while a complete placeholder is left |
| `Substitution.SubstitutionIsOnePass` | config/config.go:375-392 | replacing over and over is a single left-to-right pass if no percent sign stands right before a placeholder |
| `Substitution.TouchingPercentGoesOn` | config/config.go:378-390 | where one does, the loop can go on past what a single pass replaces |
| `Substitution.SelfReferenceLoops` | config/config.go:378-390 | a value naming its own placeholder is replaced by itself for ever |

## Left out

- NoOrphans.NoOrphanedFiring: assumes, as `NoOrphans.Clean` says, that evaluation history writes, the shutdown save and the startup load land and the active limit is not exceeded, since the promise fails otherwise; `OverLimitOrphans`, `LostRecordOrphans`, `FailedSaveOrphans` and `FailedLoadOrphans` give the exact condition for each. Rule IDs are distinct across groups; `SharedRules` has the run that fails where they are not.
- Groups.Group.Evaluate: the queue is there and writes to the store the evaluation is given, as `Start` arranges. Goroutines are not run in it: its concurrent path takes the results in any order, which is what `ConcurrentGroups` shows every schedule to come to.
- Processes.Tick: is about one group at a time; `Registries` puts the others beside it, whose rules may run between its steps, which touch none of its rules.
- Registries.ReloadSlots: an ID that moves from one group to another is given up before it is taken; the source visits the groups in map order and applies updates in their own loops, so for a while both groups may carry it, as in `SharedRules`.
- Reloads.ReloadGroups: a running group is known by the text its checksum is taken from, the effect of an update on its rules being that of `Groups.Group.UpdateWith`, and retiring by a flag; a group object is built only when it is started.
- Reloads.Reloader.Run: where a loop has not applied an update before the next reload reads its checksum, the group can be left running that update; `Reloader.Reload` gives the exact condition.
- Reloads.Reloader.Reload: parsing is a function of the files read, so the environment it substitutes is fixed while the process runs.
- Notifier.NoPrematureAutoResolve: the payload's clock is the evaluation's time; delivery time is not modelled.
- Substitution.EnvSubstitute: environments in which some value holds a percent sign, some an opening and some a closing brace are excluded, since the loop need not end there (`Substitution.SelfReferenceLoops`).
- RuleIdentities.NormalizeRuleIDs: the query hash answers a query the same way each time within one call, so the cache saves calls and changes nothing.
- StateStore.Store.RecordHistory: a history row's event_time and a saved row's updated_at, the clock at the write, are left out.
- Annotations are opaque and not kept: rendering them changes no state. A sample's first value is taken to be present.
- Times are not rounded to the tables' precision, and a save's rows are ordered by the order of the calls, as nondecreasing `updated_at` gives.
- Recording rules, group labels merged into rules, evaluation durations, error texts and metrics.
- Steps of one rule are atomic: an evaluation with the recording of its rows, and a drop with its queueing; crashes, shutdown timeouts and partly applied batches are left out.
- HTTP, YAML decoding, file globbing, SQL execution and the ClickHouse client.
