# Oxmgr: a verified model

Oxmgr is a process supervisor: a daemon that starts, watches and restarts processes, a
planner that brings them in line with a configuration file, and a foreground runtime.
This project models its stateful core in Dafny and proves what that core promises.
`dafny verify dfyconfig.toml` checks everything.

## What is modelled

- **Lifecycle.** `Lifecycle.dfy` says what each of the eighteen steps of the daemon
  (start, stop, restart, reload, delete, pull, exit event, scheduled, cron, watch,
  resource-limit and health restarts, shutdown, daemon restart, ...) leaves under one
  process name: the record, its scheduled restart, its pending watch restart and its watch
  baseline. Whatever the environment may answer (a spawn or a termination fails, a scan
  differs, a clock reading) is a parameter of the step. `ProcessManager.dfy` is the manager
  as a class that updates its maps in place; every method is proved to take exactly its
  step. `LifecycleMeaning.dfy` says what every step comes to in terms of the record alone:
  which pid, status, wish, counters and schedules it leaves, and when it leaves everything as
  it was. `LifecycleInvariant.dfy` holds the inductive invariant, `LifecycleRuns.dfy` and
  `CrashLoopRuns.dfy` the properties of whole runs, daemon restarts included.
- **Daemon loop.** `Daemon.dfy`: each branch of the loop keeps the read snapshot and the
  wake-up timer in agreement with the manager, so queries served from the snapshot are
  the manager's own answers.
- **Start order.** `StartOrder.dfy` (the algorithm with its counters and edges) and
  `StartOrderTheorems.dfy` (what it computes, for every dependency graph).
- **Apply.** `Apply.dfy` (expansion and planning), `ApplyTheorems.dfy` (what a match means,
  when a plan is empty, when a fingerprint survives storage), `ApplyExecution.dfy` (what
  the actions of a plan do to the daemon of `Daemon.dfy`), `ApplyOutcome.dfy` (what a whole
  run comes to), `ApplyRun.dfy` (the run itself and its report), `Validation.dfy`
  (validation and what it promises `apply`).
- **Fingerprints.** `Fingerprint.dfy` builds the text that is hashed,
  `FingerprintTheorems.dfy` proves it canonical and, on clean settings, faithful.
- **Crash-loop limiter and foreground runtime.** `CrashLimiter.dfy`, `ForegroundRuntime.dfy`.
- **Logs.** `LogTail.dfy` (backwards chunked reader), `LogRotation.dfy`.
- **Small codecs.** `Bundle.dfy` (service bundles), `Export.dfy` (exporting a managed process
  and importing it again), `EnvExpand.dfy` (`$VAR` expansion),
  `AutoName.dfy` (generated names).
- `Prelude.dfy`, `Text.dfy`, `Sorting.dfy`, `NameSets.dfy`, `Domain.dfy` hold shared definitions.

## What the proofs found

The code is modelled as it is. Where a promise does not hold for all inputs, a lemma says
exactly when it does.

- An `apply` converges exactly when every desired setting is stored as it was given
  (`ApplyOutcome.ConvergesIff`, `ApplyTheorems.StoredFingerprintIff`): the planner fingerprints
  the desired settings, the daemon the normalised ones. The configuration loaders normalise
  beforehand; `validate` does not look at zero cluster instances.
- A process started without a name can be called `all`, a name requests may not ask for,
  and neither validation nor `apply` rejects an app of that name. `apply` then sends
  requests that address every process. `ApplyOutcome.PlanIsSoundIff` says exactly when a
  plan is free of that; `ApplyOutcome.HarmfulRun` says what is left otherwise: nothing when
  `all` is pruned, at most desired processes when it is recreated (and the run fails), and
  undesired processes restarted when it is restarted without pruning; the desired ones
  still end as desired then, if nothing fails.
- Validation does not look at app names, the daemon does: in an environment that never fails,
  applying a validated configuration fails exactly when a process to be started or recreated
  has a name the daemon refuses (`Validation.ValidSucceedsIff`, `ApplyOutcome.FlawlessIff`).
- `apply` of an empty configuration prunes nothing (`ApplyRun.RunApply`).
- `oxmgr export` encodes the record the daemon sends to clients. A process with a webhook
  secret can therefore never be exported, and a process with environment variables is
  exported without them: it comes back unchanged exactly when it has neither
  (`Export.SentIsValidIff`, `Export.SentSettingsSurviveIff`, `Export.ExportAndImport`).
- The wake-up timer is also set for debounced watch restarts, but the branch it wakes runs
  only scheduled ones. While a watch restart is due, or a cron restart in the current second,
  the timer fires again at once until the maintenance tick (`Daemon.DaemonLoop.OnWakeUp`,
  `Daemon.FiresAtOnceIff`).
- Exporting accepts two processes of one name, importing such a bundle does not
  (`Bundle.ExportedDecodesIff`). Managed names are unique, but the encoder takes any list.
- The `$VAR` scanner pushes bytes as characters, so text outside ASCII is altered even
  without any reference (`EnvExpand.EscapingIsExactIffAscii`).
- The fingerprinted text confuses an argument list in which a separator occurs with the
  list that is cut there (`FingerprintTheorems.SeparatorsCollide`).
- When the id counter saturates, two registrations share an id
  (`LifecycleRuns.SaturatedCounterCollides`, `LifecycleRuns.RegistrationIsSafeIff`).
- When the foreground runtime fails to start an entry, the entries before it keep their
  children (`ForegroundRuntime.Supervisor.StartAll`).
- Validation accepts dependency cycles; the start order then falls back for exactly the
  apps on or behind a cycle (`StartOrderTheorems.FallbackIsBlockedApps`).

## Model

| member | source | states |
|---|---|---|
| Lifecycle.RestartDelay | src/process_manager/restart.rs:91-110 | the delay is zero only without a configured delay, never below it, and never above the larger of it and the cap |
| LifecycleMeaning.DelayGrows | src/process_manager/restart.rs:91-110 | the first delay is the configured one plus a jitter at most as long; then it doubles, but for the jitter, eight times at most, up to five minutes or the configured delay |
| LifecycleMeaning.ExitMeans | src/process_manager/restart.rs:9-33 | an exit event of another child than the current one changes nothing, nor does one that comes while the next child is on its way; that of the current child parks, ends, gives up or restarts the process, as its wish, policy, budget and the restarts of the last five minutes say |
| LifecycleMeaning.TargetMeans | src/process_manager.rs:1770-1787 | a target means the process of that name, or the one with that id if no process has the name |
| LifecycleMeaning.StartMeans | src/process_manager.rs:380-544 | a named start is accepted exactly when the command parses, the name is in order and free and the child comes up; it then runs under the next id with the given settings and counters at zero |
| LifecycleMeaning.StopMeans | src/process_manager.rs:547-581 | a stop leaves the process down, unscheduled and wanted stopped, unless its child cannot be terminated |
| LifecycleMeaning.StopAllMeans | src/process_manager.rs:584-618 | stopping all and shutting down park every process, whatever cannot be terminated; a shutdown keeps the failed health checks |
| LifecycleMeaning.RestartMeans | src/process_manager.rs:637-695 | an explicit restart brings up the new child with counters at zero, gives the process up without one, and leaves everything if the old child does not end |
| LifecycleMeaning.ReloadMeans | src/process_manager.rs:698-750 | a reload puts the new child in the place of the old one and keeps the restart count; without a new child the old one stays |
| LifecycleMeaning.PullMeans | src/process_manager.rs:977-1039 | a pull reloads a running process and restarts one that should run, if the repository changed, and leaves all others |
| LifecycleMeaning.CronMeans | src/process_manager.rs:1603-1661 | a cron restart happens exactly when its time has come and the process runs as it should, and is counted |
| LifecycleMeaning.DueWatchMeans | src/process_manager.rs:1663-1718 | a pending watch restart that is due happens if the process still runs and is watched, and makes the scan its baseline |
| LifecycleMeaning.LimitMeans | src/process_manager.rs:1849-1944 | a process over its limits is restarted while the budget lasts, then given up |
| LifecycleMeaning.WatchMeans | src/process_manager.rs:1946-2021 | the first scan is the baseline; a scan that differs restarts at once or after the delay, one that does not calls off what is pending |
| LifecycleMeaning.HealthMeans | src/process_manager.rs:2023-2147 | failed checks in a row are counted; the one that makes them too many restarts the process while the budget lasts, then gives it up |
| LifecycleMeaning.RecoveryMeans | src/process_manager.rs:291-366 | a starting daemon brings up again what should run, with its restart count and history, and leaves the rest down |
| LifecycleInvariant.RestartKeeps | src/process_manager.rs:637-695 | a restart, failing or not, leaves a consistent entry; a successful one leaves it up |
| LifecycleInvariant.TriggeredKeeps | src/process_manager.rs:1603-1661 | a restart the daemon triggers itself keeps the entry consistent even when it fails |
| LifecycleInvariant.RequestKeeps | src/process_manager.rs:547-581 | stop, shutdown, reload and pull keep the entry consistent |
| LifecycleInvariant.ExitKeeps | src/process_manager.rs:1068-1256 | an exit event, stale or not, keeps the entry consistent: parked, crash-looped, scheduled or respawned |
| LifecycleInvariant.ScheduledKeeps | src/process_manager.rs:1566-1601 | running a scheduled restart keeps the entry consistent |
| LifecycleInvariant.CronKeeps | src/process_manager.rs:1603-1661 | a cron restart keeps the entry consistent |
| LifecycleInvariant.DueWatchKeeps | src/process_manager.rs:1663-1718 | a debounced watch restart keeps the entry consistent |
| LifecycleInvariant.LimitKeeps | src/process_manager.rs:1849-1944 | a resource-limit restart keeps the entry consistent, the exhausted branch that leaves the side maps alone included |
| LifecycleInvariant.WatchKeeps | src/process_manager.rs:1946-2021 | a watch scan keeps the entry consistent |
| LifecycleInvariant.HealthKeeps | src/process_manager.rs:2023-2147 | a health check keeps the entry consistent, the exhausted branch included |
| LifecycleInvariant.RecoverKeeps | src/process_manager.rs:291-366 | loading and recovering a record yields a consistent entry |
| LifecycleInvariant.InvKept | src/process_manager.rs:380-1341 | every step of the daemon keeps the global invariant: consistent entries, unique ids below both counters, state file equal to the records |
| LifecycleInvariant.CountersKept | src/process_manager.rs:1744-1754 | the saved id counter never shrinks, is at most the counter in memory, and catches up whenever records change |
| LifecycleInvariant.RecordsFitTheCounter | src/process_manager.rs:440-441 | there are never more records than ids handed out |
| LifecycleInvariant.StartedNameIsUnique | src/process_manager.rs:417-427 | a start request registers one determined name |
| LifecycleRuns.RunsAreSafe | src/process_manager.rs:291-2147 | the invariant holds in every state of every run from an empty daemon |
| LifecycleRuns.IdsAreNeverReused | src/process_manager.rs:233-275 | over any run, an id that shows up twice belongs to the same name at both times and at every time between |
| LifecycleRuns.RegistrationIsSafeIff | src/process_manager.rs:440-441 | a registration leaves a fresh id for the next exactly when the counter is not at its end |
| LifecycleRuns.SaturatedCounterCollides | src/process_manager.rs:440-441 | at the end of the counter two registrations in a row share an id |
| LifecycleRuns.StopSticks | src/process_manager.rs:1176-1200 | once wanted stopped, a process has no pid in any later state, until an explicit start, restart or reload of it, whatever exits, timers, checks, pulls and daemon restarts happen |
| LifecycleRuns.ScheduledRestartsAreRun | src/process_manager.rs:1566-1601 | nothing due by `now` stays scheduled; each due process was waiting to restart and now runs its new child or is given up; the others are untouched |
| LifecycleRuns.ScheduledRestartIsKept | src/process_manager.rs:1135-1172 | a scheduled restart is neither lost nor moved by anything the daemon does on its own before it is due |
| LifecycleRuns.ScheduledRestartStays | src/process_manager.rs:1566-1601 | over any run of the daemon on its own, a scheduled restart stays as it is until it is due |
| LifecycleRuns.ScheduledRestartHappens | src/process_manager.rs:1566-1601 | and the first look at the schedule after that runs it, or gives the process up |
| LifecycleRuns.WatchRestartsAreDebounced | src/process_manager.rs:1975-1990 | in every run, a pending watch restart was armed by a scan that saw a change and falls due the full delay after it |
| CrashLoopRuns.DaemonCrashLoopBound | src/process_manager/restart.rs:128-146 | over any stretch of a run in which nothing clears the history of a process, daemon restarts included, no five minutes hold more automatic restarts of it than its limit |
| CrashLoopRuns.RestartsIffBelowLimit | src/process_manager/restart.rs:134-138 | and the limit is used up: when a child ends and policy and budget allow it, the process restarts exactly when fewer restarts than the limit were made in the five minutes before, and is given up otherwise |
| CrashLoopRuns.ForgetsOnlyWhen | src/process_manager.rs:1098-1256 | only a request, or an exit after which the process is to stay down, can clear the history; no timer, check, crash loop or daemon restart does |
| CrashLoopRuns.UnattendedCrashLoopBound | src/process_manager/restart.rs:128-146 | so the bound holds over every stretch without requests in which the process does not come to rest |
| ProcessManagement.ProcessManager.constructor | src/process_manager.rs:233-275 | the records are the loaded ones, and the id counter is past the saved one and past every saved id |
| ProcessManagement.ProcessManager.RecoverProcesses | src/process_manager.rs:291-366 | every record is recovered: respawned if it should run, parked otherwise, and saved |
| ProcessManagement.ProcessManager.StartDaemon | src/process_manager.rs:233-366 | loading plus recovery is one daemon-restart step from what the previous daemon saved |
| ProcessManagement.ProcessManager.StartProcess | src/process_manager.rs:380-544 | takes the start step; succeeds exactly when the request is acceptable and the spawn succeeds |
| ProcessManagement.ProcessManager.StopProcess | src/process_manager.rs:547-581 | takes the stop step; succeeds exactly when the target resolves and its process, if any, terminates, and then leaves no pid and a stopped wish |
| ProcessManagement.ProcessManager.StopAllProcesses | src/process_manager.rs:584-618 | takes the stop-all step over every process |
| ProcessManagement.ProcessManager.RestartInternal | src/process_manager.rs:637-695 | changes only the named entry, as the restart step says, and is saved unless nothing changed |
| ProcessManagement.ProcessManager.RestartProcess | src/process_manager.rs:621-624 | takes the restart step; succeeds exactly when the target resolves, by name or id, and termination and spawn succeed |
| ProcessManagement.ProcessManager.RestartAllProcesses | src/process_manager.rs:626-635 | restarts in some order up to the first failure; succeeds exactly when every process can be restarted, and then all were |
| ProcessManagement.ProcessManager.ReloadProcess | src/process_manager.rs:698-750 | takes the reload step; succeeds exactly when the target resolves, its pre-reload command succeeds and the new child comes up |
| ProcessManagement.ProcessManager.DeleteProcess | src/process_manager.rs:920-944 | takes the delete step; succeeds exactly for targets that resolve |
| ProcessManagement.ProcessManager.DeleteAllProcesses | src/process_manager.rs:948-975 | takes the delete-all step; no record is left |
| ProcessManagement.ProcessManager.PullProcesses | src/process_manager.rs:832-898 | takes the pull step for one service or for all; succeeds exactly when there is something to pull and every pull succeeds, and then reports how many were updated, unchanged and started anew |
| ProcessManagement.ProcessManager.PullSingle | src/process_manager.rs:977-1039 | changes only the pulled entry: reloaded when up, restarted when wanted, else left alone; reports the change and the new start, or exactly the failures |
| ProcessManagement.ProcessManager.HandleExitEvent | src/process_manager.rs:1068-1096 | takes the exit step for every event: one of another child than the current one changes nothing, that of the current child leaves what its record calls for |
| ProcessManagement.ProcessManager.HandleAutoRestart | src/process_manager.rs:1135-1227 | given up when as many restarts as the limit fall into the last five minutes, otherwise restarted, after the backoff or at once |
| ProcessManagement.ProcessManager.RunScheduledRestarts | src/process_manager.rs:1566-1601 | the loop over due names takes the scheduled step for all of them at once |
| ProcessManagement.ProcessManager.RunCronRestarts | src/process_manager.rs:1603-1661 | the loop takes the cron step for all due processes |
| ProcessManagement.ProcessManager.RunDueWatchRestarts | src/process_manager.rs:1663-1718 | the loop takes the debounced-watch step for all due names |
| ProcessManagement.ProcessManager.RunResourceLimitChecks | src/process_manager.rs:1849-1944 | the loop takes the limit step for all processes |
| ProcessManagement.ProcessManager.RunWatchChecks | src/process_manager.rs:1946-2021 | the loop takes the watch-scan step for all processes |
| ProcessManagement.ProcessManager.RunHealthChecks | src/process_manager.rs:2023-2147 | the loop takes the health step for all processes |
| ProcessManagement.ProcessManager.RunPeriodicTasks | src/process_manager.rs:369-377 | the six periodic steps in their order |
| ProcessManagement.ProcessManager.ShutdownAll | src/process_manager.rs:1290-1315 | takes the shutdown step over every process |
| ProcessManagement.ProcessManager.SpawnExisting | src/process_manager.rs:1317-1341 | on success only the named entry changes, its schedule and pending restart cleared; on failure nothing changes |
| ProcessManagement.ProcessManager.ResolveTarget | src/process_manager.rs:1770-1787 | finds the one process a target means, by name first and id second, or none |
| ProcessManagement.ProcessManager.NextScheduledRestartAt | src/process_manager.rs:1720-1742 | the earliest of all scheduled, pending and future cron restarts, none missed and none invented |
| Daemon.DaemonLoop.OnCommand | src/daemon.rs:152-165 | a request takes its one step, is answered as its outcome says, and is published in the snapshot; the invariant is kept unless the id counter was at its end |
| Daemon.DaemonLoop.OnExit | src/daemon.rs:166-172 | an exit event takes its step and leaves snapshot and timer in agreement |
| Daemon.DaemonLoop.OnWakeUp | src/daemon.rs:173-179 | after the timer fired nothing due is left scheduled; pending watch restarts are left alone, and the timer is set to fire again at once exactly when one of them is due or a cron restart is in the current second |
| Daemon.DaemonLoop.OnMaintenance | src/daemon.rs:180-186 | the six periodic steps are taken in their order, and snapshot and timer agree with the manager afterwards |
| Daemon.DaemonLoop.OnShutdown | src/daemon.rs:187-200 | after shutdown no process has a pid or is wanted running |
| Daemon.DaemonLoop.Settle | src/daemon.rs:207-214 | the wake-up deadline is the earliest scheduled, pending or coming cron restart, or a day away without any, and the snapshot lists the current records |
| Daemon.FiresAtOnceIff | src/daemon.rs:207-214 | the timer is set to a moment already past exactly when a scheduled or watch restart is due, or a cron restart in the current second |
| Daemon.DaemonLoop.Dispatch | src/daemon.rs:284-394 | each request becomes one step, `all` addressing every process, and succeeds exactly under the condition stated for its kind |
| Daemon.DaemonLoop.ExecuteQuery | src/daemon.rs:284-394 | the manager's answer to a query |
| Daemon.DaemonLoop.ExecuteSnapshotRequest | src/daemon.rs:396-421 | whatever the snapshot answers is the manager's answer |
| Daemon.DaemonLoop.HandleQuery | src/daemon.rs:270-282 | snapshot first, manager second: always the manager's answer |
| Daemon.ListProcesses | src/process_manager.rs:1042-1046 | exactly the records, in strictly ascending order of their ids |
| Daemon.FindInSnapshot | src/daemon.rs:472-480 | the snapshot lookup finds the process the manager would resolve |
| Daemon.RedactionHides | src/process/fingerprint.rs:50-62 | records that differ only in environment and secret are sent alike, yet the sent fingerprint decides whether clean full settings agree |
| AutoName.GenerateAutoName | src/process_manager.rs:1789-1808 | ends for every set of names, with the base or the least free suffix |
| AutoName.SuffixedInjective | src/process_manager.rs:1796-1807 | different suffixes give different names |
| AutoName.AutoNameUnique | src/process_manager.rs:1789-1808 | the generated name is determined by the names in use |
| StartOrder.OrderSpecsForStart | src/commands/import.rs:364-438 | the counter-and-edge algorithm computes the start sequence of the resolved graph, whatever order the hash set is enumerated in |
| StartOrder.BuildEdges | src/commands/import.rs:372-382 | counters and edges agree with the dependency lists, multiple edges counted |
| StartOrder.NameIndex | src/commands/import.rs:365-370 | a name resolves to the last app carrying it |
| StartOrder.Place | src/commands/import.rs:421-426 | placing an app leaves every counter equal to the unmet dependencies of its app |
| StartOrder.ReadyOf | src/commands/import.rs:388-392 | a zero counter means no dependency is left to place |
| StartOrder.SortByKey | src/commands/import.rs:394-408 | the fallback holds its apps once each, strictly ascending by start order, name and index |
| StartOrderTheorems.StartOrderIsPermutation | src/commands/import.rs:364-438 | every app is started exactly once |
| StartOrderTheorems.FallbackIsBlockedApps | src/commands/import.rs:394-408 | the fallback holds exactly the apps on a cycle or depending on one |
| StartOrderTheorems.FallbackIffCycle | src/commands/import.rs:394-408 | the fallback is taken if and only if the graph has a cycle |
| StartOrderTheorems.DependenciesComeFirst | src/commands/import.rs:421-426 | an app that is not blocked comes after all its dependencies, cycles elsewhere or not |
| StartOrderTheorems.TopologicalIffAcyclic | src/commands/import.rs:364-438 | without a cycle the order is topological; with one no order is |
| StartOrderTheorems.StartOrderIsLeastTopological | src/commands/import.rs:410-423 | it is the lexicographically least topological order under start order, name and index |
| StartOrderTheorems.StartOrderByFields | src/commands/import.rs:410-436 | if an app with the smaller start order, or the same one and the earlier name, or both the same and the earlier place, stands later, it had to wait for an app that stands in between, or for the other; or it is on or behind a cycle and the other is not |
| StartOrderTheorems.IndependentAppsByKey | src/commands/import.rs:388-408 | without dependencies apps start by start order, then name, then place |
| StartOrderTheorems.DepsIff | src/commands/import.rs:365-382 | an app depends on the last app carrying a name it lists, and on no other |
| StartOrderTheorems.StartOrderIsCanonical | src/commands/import.rs:364-438 | with distinct names the order does not depend on how the apps were listed, even with cycles |
| StartOrderTheorems.StartOrderIsIdempotent | src/commands/import.rs:364-438 | ordering twice equals ordering once |
| Apply.ExpandSpecs | src/commands/common.rs:63-129 | accepts exactly the all-named app lists; every app yields at least one process in its place, with its own settings, a stop timeout of at least a second and, if there are several, its number in name and instance variable |
| Apply.InstancesAreDistinct | src/commands/common.rs:78-89 | the instances of one app have different names |
| Apply.InstancesDiffer | src/commands/common.rs:78-86 | two instances of one app differ in name and in the value of their instance variable |
| Apply.ExpandSpecsForApply | src/commands/apply.rs:156-173 | accepts exactly when all apps are named and no two instances share a name, with the same processes |
| ApplyTheorems.MatchMeans | src/commands/apply.rs:223-258 | by fingerprint, clean settings match exactly when they agree; without one, exactly when the full settings agree up to five that are not compared |
| Apply.PlanApplyActions | src/commands/apply.rs:175-221 | one action per desired process in order, then with pruning one deletion per undesired one in name order |
| ApplyTheorems.ListingIsListed | src/commands/apply.rs:181-185 | the daemon's listing, by name, is exactly its records |
| ApplyTheorems.NothingToDoIff | src/commands/apply.rs:175-221 | a plan is empty exactly when everything desired runs with the desired fingerprint and, with pruning, nothing else is managed |
| ApplyTheorems.StoredFingerprintIff | src/process_manager.rs:443-502 | the stored fingerprint equals the desired one exactly when no setting is normalised on the way in |
| ApplyOutcome.PlanIsSoundIff | src/commands/apply.rs:175-221 | a plan addresses single processes, each once, exactly when a process called `all` is not managed, or desired and running as desired, or neither desired nor pruned |
| ApplyRun.Perform | src/commands/apply.rs:63-131 | an action sends exactly its requests and succeeds when they do |
| ApplyRun.RunPlan | src/commands/apply.rs:56-131 | all actions are tried one after the other, and each is counted once under what became of it |
| ApplyRun.RunApply | src/commands/apply.rs:27-146 | one run executes the plan for the listed state; its outcome for desired and other processes is stated for every state, with a process called `all` or without; in an environment that never fails a harmless run is flawless exactly when the daemon takes every process to be started or recreated |
| ApplyRun.ApplyTwice | src/commands/apply.rs:27-146 | a second run after a flawless one changes nothing and skips every process exactly when all of them settle, also when the first restarted a process called `all`; after one that pruned `all` it has to start every process anew |
| ApplyExecution.ActsOnTarget | src/commands/apply.rs:63-131 | an action that addresses a process changes no other, and on success achieves what it is for |
| ApplyExecution.SoundExecution | src/commands/apply.rs:63-131 | trying a sound plan touches the addressed processes only, and without a failure achieves all of it together |
| ApplyExecution.SoundSucceedsIff | src/commands/apply.rs:63-131 | each action of a sound plan succeeds or fails on its own merits, whatever became of the others: a start or recreation exactly when the daemon accepts command line and name and the child comes up |
| ApplyExecution.DeletingAll | src/commands/apply.rs:113-126 | deleting `all` and then only deleting leaves nothing |
| ApplyExecution.RecreatingAll | src/commands/apply.rs:90-112 | recreating `all` deletes every process and fails; only processes the plan starts afterwards remain |
| ApplyExecution.RestartingAll | src/commands/apply.rs:76-89 | restarting `all` restarts also the processes the plan is not about |
| ApplyExecution.RestartingAllAchieves | src/commands/apply.rs:76-126 | if nothing fails, a plan that restarts `all` once still achieves all its other actions, and every process it is not about keeps its settings and stays up if it was |
| ApplyOutcome.HarmlessRun | src/commands/apply.rs:27-146 | on a sound plan, without a failure desired processes end as desired and undesired ones are gone with pruning; without pruning undesired ones are untouched even with failures |
| ApplyOutcome.FlawlessIff | src/commands/apply.rs:63-131 | a harmless run is flawless exactly when each action works on its own; if the environment never fails, exactly when every process to be started or recreated has a command line and a name the daemon accepts |
| ApplyOutcome.HarmfulRun | src/commands/apply.rs:76-126 | otherwise pruning `all` leaves nothing, recreating it fails and leaves at most desired processes, and restarting it, if nothing fails, leaves desired processes as desired and undesired ones gone with pruning and restarted without |
| ApplyOutcome.ConvergesIff | src/commands/apply.rs:175-221 | after a flawless apply that did not prune `all`, planning again finds nothing to do exactly when every desired process settles; with pruning the managed names are the desired names |
| ApplyOutcome.AllCanBeManaged | src/process_manager/spawn.rs:130-147 | a process started without a name can be called `all`, which requests may not ask for |
| Validation.ValidateResolvedSpecs | src/commands/validate.rs:63-146 | accepts exactly the valid configurations and reports their counts |
| Validation.CheckApp | src/commands/validate.rs:68-92 | the checks of one app in their order accept exactly the apps that are in order |
| Validation.CheckDependencies | src/commands/validate.rs:104-114 | finds an unknown dependency if and only if there is one |
| Validation.CheckExpansion | src/commands/validate.rs:116-139 | fails if and only if two instances share a name, and counts the instances |
| Validation.ValidIsAccepted | src/commands/validate.rs:116-139 | a validated, all-named configuration is accepted by apply in every order of its apps |
| Validation.ValidConvergesIff | src/commands/validate.rs:63-146 | a validated configuration, once applied without a failure, is left alone by the next apply exactly when no process newly asks for zero cluster instances |
| Validation.ValidSucceedsIff | src/commands/validate.rs:63-146 | in an environment that never fails, a harmless apply of a validated configuration is flawless exactly when all names of processes to be started or recreated are valid, which validation does not check |
| Fingerprint.BuildPayload | src/process/fingerprint.rs:138-246 | the text built by loops and sorts is the canonical text, whatever order the environment is enumerated in |
| Fingerprint.RenderEnv | src/process/fingerprint.rs:206-215 | the environment's text does not depend on enumeration order |
| Sorting.SortedIsCanonical | src/process/fingerprint.rs:181-199 | sorting forgets exactly the order |
| FingerprintTheorems.PayloadIsCanonical | src/process/fingerprint.rs:138-246 | settings equal up to unordered parts and absent-or-empty texts have one text |
| FingerprintTheorems.PayloadIsFaithful | src/process/fingerprint.rs:138-246 | on settings free of separators, texts are equal exactly when the settings agree up to those parts |
| FingerprintTheorems.SeparatorsCollide | src/process/fingerprint.rs:143-147 | any argument list shares its text with the list cut at its separators, and differs from it exactly when a separator occurs |
| CrashLimiter.PruneForgetsPrefix | src/process_manager/restart.rs:128-132 | pruning an ascending history drops a prefix: exactly the restarts outside the window |
| CrashLimiter.LimitReachedIff | src/process_manager/restart.rs:134-138 | the limit is reached exactly when it is on and at least that many restarts were recorded in the last five minutes |
| CrashLimiter.LogDecides | src/process_manager/restart.rs:128-138 | what the limiter remembers decides as all restarts ever made would |
| CrashLimiter.RecordKeepsSpacing | src/process_manager/restart.rs:134-146 | checking and recording, at two clock readings, keeps any limit + 1 consecutive restarts a window apart |
| CrashLimiter.WindowBound | src/commands/runtime.rs:312-328 | then every five-minute interval holds at most the limit |
| ForegroundRuntime.ObservedIsSupervised | src/commands/runtime.rs:84-135 | a pass leaves an entry with exactly one of child and pending restart, and respawns only childless entries |
| ForegroundRuntime.ObservedIsLimited | src/commands/runtime.rs:298-328 | a pass keeps the restart budget and the spacing of all restarts ever made |
| ForegroundRuntime.CrashLoopBound | src/commands/runtime.rs:298-328 | a log kept by the limiter holds no more than the limit in any five minutes |
| ForegroundRuntime.ShouldRestart | src/commands/runtime.rs:298-310 | restarts exactly when the policy wants it, the budget has one left and fewer restarts than the limit fall into the last five minutes |
| ForegroundRuntime.PollEntry | src/commands/runtime.rs:85-135 | one entry in one pass: respawned when due, rescheduled after the configured delay when its child ended and may restart, otherwise the end of the runtime |
| ForegroundRuntime.FatalIff | src/commands/runtime.rs:84-135 | by all restarts ever made: an entry ends the runtime exactly when its child cannot be brought up or looked after, or ended and policy, budget or five-minute limit forbid a restart |
| ForegroundRuntime.Supervisor.StartAll | src/commands/runtime.rs:59-61 | exactly the entries before the first failing spawn get the child spawned for them, the others stay as they are |
| ForegroundRuntime.Supervisor.Pass | src/commands/runtime.rs:84-140 | a pass handles every entry, records exactly the restarts it makes, keeps names and settings, and ends with everything stopped exactly when some entry is fatal |
| ForegroundRuntime.Supervisor.Run | src/commands/runtime.rs:74-141 | until it ends every entry is supervised, when it ends none has a child or a pending restart; how it ends and which restarts it records follow from the polls; budget and five-minute limit hold for every entry |
| ForegroundRuntime.RunRuntime | src/commands/runtime.rs:44-141 | over a whole run from the start, every entry keeps its settings, its restarts stay within its budget, and no five minutes hold more of them than its limit |
| LogTail.ReadLastLines | src/logging.rs:266-316 | the chunked backwards reader returns exactly the last lines of the whole file, for every chunk size and limit: those the end of the file consists of, after nothing or a newline |
| LogTail.LinesIff | src/logging.rs:307-313 | the lines of a text are the one way to cut it into pieces without newlines, each ended by a newline or a return and a newline, the last one possibly by nothing |
| LogTail.JoinedReadsBack | src/logging.rs:307-313 | lines without newlines, all ended alike, read back as they are |
| LogTail.ChunksFromEnd | src/logging.rs:281-298 | the chunks read are a suffix that is the whole file or holds more newlines than lines wanted |
| LogTail.KeepLast | src/logging.rs:307-313 | the ring holds the last lines of the text |
| LogTail.SuffixSuffices | src/logging.rs:286-298 | a suffix with more newlines than lines wanted has the same last lines as the file |
| LogRotation.ShiftConserves | src/logging.rs:181-203 | a shift, finished or broken off, loses the oldest file and keeps the rest in order, gaps included |
| LogRotation.RotatedLog.Shift | src/logging.rs:181-203 | the renaming loop moves file i to i + 1 for all files, or down to the one whose renaming failed |
| LogRotation.RotatedLog.RotateIfNeeded | src/logging.rs:166-205 | rotates exactly when the log has reached its size, each file then being the one below it of before; everything written is what was lost plus what is on disk |
| LogRotation.RotatedLog.Append | src/process_manager.rs:89-104 | appending extends the history at its end |
| LogRotation.RotatedLog.Cleanup | src/logging.rs:207-258 | removes exactly the files beyond the limit or too old; without ageing no history is lost |
| LogRotation.RotatedLog.Prepare | src/logging.rs:65-79 | a rotation loses exactly the oldest file, without one nothing is lost; clean-up then removes exactly the files beyond the limit or too old, and a failed rotation leaves it out |
| LogRotation.HistoryIsSuffix | src/logging.rs:166-205 | the files on disk, oldest first, are a suffix of everything written, and all of it until more rotations than kept files |
| Bundle.EncodeBundle | src/bundle.rs:134-195 | succeeds exactly for exportable selections, with the framed text |
| Bundle.DecodeBundle | src/bundle.rs:199-289 | succeeds exactly for acceptable bytes, with their services in order |
| Bundle.DecompressPayload | src/bundle.rs:383-402 | the chunked loop returns the whole output exactly when it is within the limit |
| Bundle.AcceptServices | src/bundle.rs:278-288 | succeeds exactly when all services are valid and their names distinct |
| Bundle.ValidateService | src/bundle.rs:404-527 | the sequence of checks accepts exactly the valid services |
| Bundle.Le32RoundTrip | src/bundle.rs:183-191 | lengths in the header read back as written |
| Bundle.Le32Injective | src/bundle.rs:215-225 | and every header length has one spelling |
| Bundle.FrameLayout | src/bundle.rs:183-192 | a bundle is the magic word, the version, both lengths with the least significant byte first, the checksum and the compressed text |
| Bundle.ExportedDecodesIff | src/bundle.rs:134-289 | an exported bundle decodes exactly when no name was exported twice |
| Bundle.RoundTrip | src/bundle.rs:134-289 | export then import returns the exported services in order, or fails exactly on a repeated name |
| Bundle.AcceptedIsFramed | src/bundle.rs:199-256 | accepted bytes are 49 plus the payload long and are the frame of their own content |
| Bundle.SettingsSurvive | src/bundle.rs:302-381 | normalised settings that are encoded come back unchanged, command line aside; which settings an export encodes is the matter of `Export` |
| Export.SentIsValidIff | src/process/fingerprint.rs:50-62 | the record sent for a process can be exported exactly when it has no webhook secret and its settings other than the environment are valid |
| Export.SentSettingsSurviveIff | src/bundle.rs:302-381 | it comes back with its settings, command line aside, but without environment: unchanged exactly when there was none |
| Export.ExportProcess | src/commands/export.rs:14-21 | an export succeeds exactly when the target resolves to a process without webhook secret, valid but for its environment, that fits the limits |
| Export.ExportAndImport | src/commands/import.rs:137-148 | whatever can be exported can be imported, under its name and as it was except for its environment |
| EnvExpand.ExpandVars | src/env_expand.rs:45-100 | the index-driven scan computes the token-by-token expansion, first error first |
| EnvExpand.ReadingIffScanned | src/env_expand.rs:45-100 | a value has at most one reading in the token grammar, and the scanner finds it |
| EnvExpand.ExpandIsMeaning | src/env_expand.rs:45-100 | expansion succeeds exactly when the value is readable and every reference named and set; substituted text is not scanned again |
| EnvExpand.BareExpands | src/env_expand.rs:80-91 | `$NAME` stands for the value of the longest name that follows, and an unset one is an error |
| EnvExpand.BracedExpands | src/env_expand.rs:66-79 | `${NAME}` stands for the value of any name; an unset or empty one is an error |
| EnvExpand.OpenBraceFails | src/env_expand.rs:66-69 | a brace that is not closed is an error |
| EnvExpand.OtherExpands | src/env_expand.rs:54-98 | everything else stands for itself, two dollar signs for one |
| EnvExpand.DoubledExpands | src/env_expand.rs:62-65 | whatever is set, doubled dollar signs expand to the bytes of the original |
| EnvExpand.EscapingIsExactIffAscii | src/env_expand.rs:54-58 | doubling dollar signs and expanding returns the original exactly for ASCII text |

## Left out

- Asynchronous I/O, sockets, the HTTP API, webhooks, event streams and log forwarding: each branch of the daemon loop is one step, and what the operating system answers is a parameter.
- Process control, cgroups, metrics and git: success or failure only.
- Failures of saving the state file: saving always succeeds. A save that failed after a spawn would make error handlers treat a live process as gone.
- The state file's process list is kept as the map it is loaded into; duplicate names in an edited state file are outside the model.
- Leftovers of a crashed daemon: recovery terminates them as best it can before respawning; whether they are really gone is not modelled.
- Clock readings within one handling of a process are one reading in the daemon; the foreground runtime has its two readings.
- Cron expressions, shell word splitting, regular expressions, SHA-256, gzip and JSON: parameters, or the text before hashing. A fingerprint here is the text that is hashed, so hash collisions are outside the model.
- Fingerprint.BuildPayload: quoted texts escape the quote, the backslash and newline, return, tab and NUL; other unprintable characters stay as they are. The CPU limit is kept as it is printed.
- LogTail.ReadLastLines: lines are bytes; the replacement of invalid UTF-8 is not modelled. (A chunk boundary may cut a character, but only in a line that is dropped.)
- LogRotation.RotatedLog.Cleanup: which files are too old is a parameter; once ageing removed a file, the record of what was written is no longer kept up.
- Bundle.DecompressPayload: a stream that is both corrupt and too long is refused with either error in the code; here it counts as corrupt.
- Export.ExportProcess: choosing and writing the bundle file; log file paths are not exported.
- Order of the errors within one app's validation, and messages of errors in general.
- ApplyRun.RunApply: requests of other clients and steps of the daemon between the requests of one apply; the id counter must have room for the desired processes.
- Daemon.DaemonLoop.OnCommand: fewer than 2^64 - 1 records are managed, so the search for a free name does not overflow. Once the id counter has run out, later requests are outside the model; what happens first is `LifecycleRuns.SaturatedCounterCollides`.
- AutoName.GenerateAutoName: fewer names than 2^64 - 1 are in use, so the suffix does not overflow.
- CrashLoopRuns.DaemonCrashLoopBound: stops, explicit restarts, reloads and exits without a restart clear the history (`CrashLoopRuns.ForgetsOnlyWhen`), so the bound is per stretch between them.
- Daemon-wide restart totals: cron and watch restarts count without checking the budget, so no bound on the total is claimed; the bound is proved for the foreground runtime.
- Liveness of debounced watch restarts: every differing scan puts the restart off again.
- Configuration loaders and their profiles, the command line, doctor, service installers, terminal and web interfaces: field-by-field or presentation code.
