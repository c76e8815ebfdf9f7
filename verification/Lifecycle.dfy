/** The process-lifecycle state machine of the daemon (src/process_manager.rs):
    what every transition does to the entries of one process name. */
module Lifecycle {
  import opened Prelude
  import opened Domain
  import Text
  import CrashLimiter
  import AutoName

  const BACKOFF_CAP_SECS: nat := 300
  const BACKOFF_RESET_SECS: nat := 60
  const DEFAULT_READY_TIMEOUT_SECS: nat := 30

  /** The runtime record of one managed process. */
  datatype Proc = Proc(
    id: nat,
    name: string,
    config: Config,
    logs: Logs,
    pid: Option<nat>,
    status: Status,
    desired: Desired,
    restartCount: nat,
    history: seq<nat>,
    backoffAttempt: nat,
    healthFailures: nat,
    nextHealthCheck: Option<nat>,
    lastStartedAt: Option<nat>,
    nextCronRestart: Option<nat>)

  datatype Pending = Pending(dueAt: nat, fingerprint: nat)

  /** The state file. Its process list is kept as the map the daemon loads it into. */
  datatype Disk = Disk(nextId: nat, processes: map<string, Proc>)

  datatype State = State(
    processes: map<string, Proc>,
    scheduled: map<string, nat>,
    pending: map<string, Pending>,
    watched: map<string, nat>,
    nextId: nat,
    disk: Disk)

  /** Everything the manager knows under one name. */
  datatype Slot = Slot(
    proc: Option<Proc>,
    scheduled: Option<nat>,
    pending: Option<Pending>,
    watched: Option<nat>)

  const EMPTY := Slot(None, None, None, None)

  function Lookup<T>(m: map<string, T>, name: string): Option<T> {
    if name in m then Some(m[name]) else None
  }

  function SlotOf(s: State, name: string): Slot {
    Slot(Lookup(s.processes, name), Lookup(s.scheduled, name), Lookup(s.pending, name), Lookup(s.watched, name))
  }

  datatype PullResult = PullFailed | Unchanged | Changed

  /** What the environment answers while one process is handled: whether the old
      process could be terminated and the pre-reload command succeeded, the pid of
      the new child (None when spawning or readiness fails), directory scans, clock
      readings and so on. Any answers are possible. */
  datatype Outcome = Outcome(
    terminated: bool,
    preReloadOk: bool,
    spawned: Option<nat>,
    scan: Option<nat>,
    rescan: Option<nat>,
    epoch: nat,
    instant: nat,
    jitter: nat,
    cronNext: Option<nat>,
    overLimit: bool,
    healthy: bool,
    pull: PullResult)

  datatype ExitEvent = ExitEvent(name: string, pid: nat, success: bool, waitError: bool)

  // ---------------------------------------------------------------------
  // Pieces shared by several transitions
  // ---------------------------------------------------------------------

  function NextCheck(c: Config, now: nat): Option<nat> {
    if c.healthCheck.None? then None
    else Some(SatAdd(now, AtLeastOne(c.healthCheck.value.intervalSecs), U64_MAX))
  }

  function Incremented(n: nat): nat {
    SatAdd(n, 1, U32_MAX)
  }

  function Launched(p: Proc, pid: nat, now: nat): Proc {
    p.(pid := Some(pid), status := Running, desired := WantRunning,
       lastStartedAt := Some(now), nextHealthCheck := NextCheck(p.config, now))
  }

  /** A freshly running process: nothing scheduled, its watch baseline taken. */
  function Attached(p: Proc, o: Outcome): Slot {
    Slot(Some(p), None, None, if p.config.watch then o.rescan else None)
  }

  function Parked(p: Proc): Proc {
    p.(pid := None, status := Stopped, desired := WantStopped, backoffAttempt := 0,
       healthFailures := 0, nextHealthCheck := None, history := [])
  }

  function GaveUp(p: Proc): Proc {
    p.(status := Errored, desired := WantStopped)
  }

  predicate IsUp(p: Proc) {
    p.status == Running && p.pid.Some?
  }

  // ---------------------------------------------------------------------
  // Requests: start, stop, restart, reload, delete, pull
  // ---------------------------------------------------------------------

  function Fresh(id: nat, name: string, config: Config, logs: Logs, o: Outcome, pid: nat): Proc {
    var c := Normalized(config);
    Proc(id, name, c, logs, Some(pid), Running, WantRunning, 0, [], 0, 0, NextCheck(c, o.epoch),
         Some(o.epoch), if c.cronRestart.Some? then o.cronNext else None)
  }

  predicate StopOk(x: Slot, o: Outcome) {
    x.proc.Some? && (x.proc.value.pid.Some? ==> o.terminated)
  }

  function StopSlot(x: Slot, o: Outcome): Slot {
    if !StopOk(x, o) then x
    else Slot(Some(Parked(x.proc.value)), None, None, None)
  }

  /** `stop all`: failures to terminate are ignored. */
  function StopAllSlot(x: Slot): Slot {
    if x.proc.None? then x else Slot(Some(Parked(x.proc.value)), None, None, None)
  }

  /** Shutdown parks like `stop all` but keeps the count of failed health checks. */
  function ShutdownSlot(x: Slot): Slot {
    if x.proc.None? then x
    else Slot(Some(Parked(x.proc.value).(healthFailures := x.proc.value.healthFailures)), None, None, None)
  }

  predicate RestartOk(x: Slot, o: Outcome) {
    x.proc.Some? && (x.proc.value.pid.Some? ==> o.terminated) && o.spawned.Some?
  }

  /** The record just before the new child is spawned. */
  function Wiped(p: Proc, reset: bool, now: nat): Proc {
    p.(restartCount := if reset then 0 else p.restartCount,
       history := if reset then [] else p.history,
       backoffAttempt := 0, desired := WantRunning, status := Restarting, pid := None,
       healthFailures := 0, nextHealthCheck := NextCheck(p.config, now))
  }

  function RestartSlot(x: Slot, reset: bool, o: Outcome): Slot {
    if x.proc.None? || (x.proc.value.pid.Some? && !o.terminated) then x
    else
      var p := Wiped(x.proc.value, reset, o.epoch);
      if o.spawned.Some? then Attached(Launched(p, o.spawned.value, o.epoch), o)
      else Slot(Some(GaveUp(p)), None, None, None)
  }

  function Replaced(p: Proc, pid: nat, now: nat): Proc {
    p.(pid := Some(pid), status := Running, desired := WantRunning, healthFailures := 0, history := [],
       nextHealthCheck := NextCheck(p.config, now))
  }

  predicate ReloadOk(x: Slot, o: Outcome) {
    && x.proc.Some? && (x.proc.value.config.preReloadCmd.Some? ==> o.preReloadOk)
    && (if x.proc.value.pid.None? then RestartOk(x, o) else o.spawned.Some?)
  }

  function ReloadSlot(x: Slot, o: Outcome): Slot {
    if x.proc.None? || (x.proc.value.config.preReloadCmd.Some? && !o.preReloadOk) then x
    else if x.proc.value.pid.None? then RestartSlot(x, true, o)
    else if o.spawned.None? then x
    else Attached(Replaced(x.proc.value, o.spawned.value, o.epoch), o)
  }

  /** Whether pulled changes make the process start anew: a running one is reloaded,
      one that should run is restarted. */
  predicate PullStarts(x: Slot, o: Outcome) {
    x.proc.Some? && o.pull == Changed && (IsUp(x.proc.value) || x.proc.value.desired == WantRunning)
  }

  predicate PullOk(x: Slot, o: Outcome) {
    && x.proc.Some? && x.proc.value.config.gitRepo.Some? && x.proc.value.config.cwd.Some?
    && o.pull != PullFailed
    && (PullStarts(x, o) ==> if IsUp(x.proc.value) then ReloadOk(x, o) else RestartOk(x, o))
  }

  function PullSlot(x: Slot, o: Outcome): Slot {
    if x.proc.None? || x.proc.value.config.gitRepo.None? || x.proc.value.config.cwd.None? then x
    else if o.pull != Changed then x
    else if IsUp(x.proc.value) then ReloadSlot(x, o)
    else if x.proc.value.desired == WantRunning then RestartSlot(x, true, o)
    else x
  }

  // ---------------------------------------------------------------------
  // Exit events
  // ---------------------------------------------------------------------

  predicate ExitMatches(p: Proc, e: ExitEvent) {
    if p.pid.Some? then p.pid.value == e.pid else p.desired != WantRunning
  }

  predicate CanAutoRestart(p: Proc, e: ExitEvent) {
    !e.waitError && p.config.restartPolicy.ShouldRestart(e.success) && p.restartCount < p.config.maxRestarts
  }

  function Pow2(n: nat): (r: nat)
    ensures r >= 1
  {
    if n == 0 then 1 else 2 * Pow2(n - 1)
  }

  /** Exponential backoff with jitter, capped. */
  function RestartDelay(c: Config, attempt: nat, seed: nat): (d: nat)
    ensures d == 0 <==> c.restartDelaySecs == 0
    ensures d > 0 ==> c.restartDelaySecs <= d
    ensures d <= c.restartDelaySecs || d <= BACKOFF_CAP_SECS
  {
    var base := c.restartDelaySecs;
    if base == 0 then 0
    else
      var cap := if BACKOFF_CAP_SECS > base then BACKOFF_CAP_SECS else base;
      var factor := Pow2(if attempt < 8 then attempt else 8);
      var jitter := if base > 1 then seed % base else seed % 2;
      assert base * factor >= base;
      var d := base * factor + jitter;
      if d < cap then d else cap
  }

  function BackoffAttempt(p: Proc, now: nat): nat {
    if p.lastStartedAt.Some? && now >= p.lastStartedAt.value + BACKOFF_RESET_SECS then 0
    else p.backoffAttempt
  }

  function MarkedRestarting(p: Proc, o: Outcome): Proc {
    p.(history := CrashLimiter.Recorded(CrashLimiter.Prune(p.history, o.epoch), p.config.crashRestartLimit, o.epoch),
       status := Restarting,
       restartCount := Incremented(p.restartCount),
       backoffAttempt := Incremented(BackoffAttempt(p, o.epoch)),
       healthFailures := 0, nextHealthCheck := NextCheck(p.config, o.epoch))
  }

  function CrashLooped(p: Proc, now: nat): Proc {
    GaveUp(p).(history := CrashLimiter.Prune(p.history, now), backoffAttempt := 0, healthFailures := 0, nextHealthCheck := None)
  }

  function AutoRestartSlot(p: Proc, o: Outcome): Slot {
    if CrashLimiter.LimitReached(p.history, p.config.crashRestartLimit, o.epoch) then
      Slot(Some(CrashLooped(p, o.epoch)), None, None, None)
    else
      var delay := RestartDelay(p.config, BackoffAttempt(p, o.epoch), o.jitter);
      var marked := MarkedRestarting(p, o);
      if delay > 0 then Slot(Some(marked), Some(o.instant + delay), None, None)
      else if o.spawned.Some? then Attached(Launched(marked, o.spawned.value, o.epoch), o)
      else Slot(Some(GaveUp(marked)), None, None, None)
  }

  function TerminalStatus(e: ExitEvent): Status {
    if e.waitError then Errored else if e.success then Stopped else Crashed
  }

  function ExitSlot(x: Slot, e: ExitEvent, o: Outcome): Slot {
    if x.proc.None? || !ExitMatches(x.proc.value, e) then x
    else
      var p := x.proc.value.(pid := None);
      if p.desired == WantStopped then
        Slot(Some(p.(status := Stopped, backoffAttempt := 0, nextHealthCheck := None, history := [])), None, None, None)
      else if CanAutoRestart(p, e) then AutoRestartSlot(p, o)
      else
        Slot(Some(p.(status := TerminalStatus(e), backoffAttempt := 0, nextHealthCheck := None, history := [])),
             None, None, None)
  }

  // ---------------------------------------------------------------------
  // Periodic tasks
  // ---------------------------------------------------------------------

  predicate ScheduledDue(x: Slot, now: nat) {
    x.scheduled.Some? && x.scheduled.value <= now
  }

  function ScheduledSlot(x: Slot, now: nat, o: Outcome): Slot {
    if !ScheduledDue(x, now) then x
    else
      var y := x.(scheduled := None);
      if y.proc.None? || y.proc.value.desired != WantRunning || y.proc.value.status != Restarting then y
      else if o.spawned.Some? then Attached(Launched(y.proc.value, o.spawned.value, o.epoch), o)
      else y.(proc := Some(GaveUp(y.proc.value)))
  }

  /** A restart triggered by the daemon itself. It counts as one more restart; a
      failure is reported as an error even when the old process kept running. */
  function TriggeredSlot(x: Slot, count: nat, o: Outcome): (r: Slot)
    requires x.proc.Some?
    ensures r.proc.Some?
  {
    var y := RestartSlot(x, false, o);
    if RestartOk(x, o) then y.(proc := Some(y.proc.value.(restartCount := Incremented(count))))
    else y.(proc := Some(y.proc.value.(status := Errored)))
  }

  predicate CronDue(x: Slot, now: nat) {
    && x.proc.Some?
    && x.proc.value.config.cronRestart.Some?
    && x.proc.value.nextCronRestart.Some? && x.proc.value.nextCronRestart.value <= now
    && x.proc.value.status == Running && x.proc.value.desired == WantRunning
  }

  function CronSlot(x: Slot, now: nat, o: Outcome): Slot {
    if !CronDue(x, now) then x
    else
      var y := TriggeredSlot(x, x.proc.value.restartCount, o);
      if RestartOk(x, o) && o.cronNext.Some? then y.(proc := Some(y.proc.value.(nextCronRestart := o.cronNext)))
      else y
  }

  predicate WatchDue(x: Slot, now: nat) {
    x.pending.Some? && x.pending.value.dueAt <= now
  }

  function DueWatchSlot(x: Slot, now: nat, o: Outcome): Slot {
    if !WatchDue(x, now) then x
    else
      var y := x.(pending := None);
      if y.proc.None? || !y.proc.value.config.watch || !IsUp(y.proc.value) then y
      else
        var z := TriggeredSlot(y, y.proc.value.restartCount, o);
        if RestartOk(y, o) then z.(watched := Some(x.pending.value.fingerprint)) else z
  }

  /** `max_restarts` exhausted: the process is terminated (best effort) and given up.
      The entries beside the record are left alone. */
  function Exhausted(x: Slot): Slot
    requires x.proc.Some?
  {
    x.(proc := Some(GaveUp(x.proc.value.(pid := None))))
  }

  predicate LimitViolated(x: Slot, o: Outcome) {
    x.proc.Some? && IsUp(x.proc.value) && x.proc.value.config.resourceLimits.Some? && o.overLimit
  }

  function LimitSlot(x: Slot, o: Outcome): Slot {
    if !LimitViolated(x, o) then x
    else if x.proc.value.restartCount >= x.proc.value.config.maxRestarts then Exhausted(x)
    else TriggeredSlot(x, x.proc.value.restartCount, o)
  }

  predicate WatchCandidate(x: Slot) {
    x.proc.Some? && x.proc.value.config.watch && IsUp(x.proc.value)
  }

  function WatchSlot(x: Slot, o: Outcome): Slot {
    if !WatchCandidate(x) || o.scan.None? then x
    else if x.watched.None? then x.(watched := o.scan)
    else if x.watched == o.scan then x.(pending := None)
    else if x.proc.value.config.watchDelaySecs > 0 then
      x.(pending := Some(Pending(o.instant + x.proc.value.config.watchDelaySecs, o.scan.value)))
    else
      var z := TriggeredSlot(x, x.proc.value.restartCount, o).(pending := None);
      if RestartOk(x, o) then z.(watched := o.scan) else z
  }

  predicate HealthDue(x: Slot, now: nat) {
    && x.proc.Some? && IsUp(x.proc.value) && x.proc.value.config.healthCheck.Some?
    && (x.proc.value.nextHealthCheck.None? || x.proc.value.nextHealthCheck.value <= now)
  }

  predicate Unhealthy(p: Proc, o: Outcome)
    requires p.config.healthCheck.Some?
  {
    !o.healthy && Incremented(p.healthFailures) >= AtLeastOne(p.config.healthCheck.value.maxFailures)
  }

  function Checked(p: Proc, now: nat, o: Outcome): Proc
    requires p.config.healthCheck.Some?
  {
    p.(nextHealthCheck := NextCheck(p.config, now),
       healthFailures := if o.healthy || Unhealthy(p, o) then 0 else Incremented(p.healthFailures))
  }

  function HealthSlot(x: Slot, now: nat, o: Outcome): Slot {
    if !HealthDue(x, now) then x
    else
      var p := x.proc.value;
      var y := x.(proc := Some(Checked(p, now, o)));
      if !Unhealthy(p, o) then y
      else if p.restartCount >= p.config.maxRestarts then Exhausted(y)
      else TriggeredSlot(y, p.restartCount, o)
  }

  // ---------------------------------------------------------------------
  // Daemon start: load the state file, then recover
  // ---------------------------------------------------------------------

  /** What the state file keeps of a record (the next cron time is not stored). */
  function Persisted(p: Proc): Proc {
    p.(nextCronRestart := None)
  }

  function Loaded(p: Proc, now: nat): Proc {
    var c := if p.config.readyTimeoutSecs == 0
             then p.config.(readyTimeoutSecs := DEFAULT_READY_TIMEOUT_SECS) else p.config;
    p.(config := c, healthFailures := 0, nextHealthCheck := NextCheck(c, now), nextCronRestart := None)
  }

  function Recovered(p: Proc, o: Outcome): Proc {
    p.(pid := None, status := Stopped, healthFailures := 0, nextHealthCheck := NextCheck(p.config, o.epoch),
       nextCronRestart := if p.config.cronRestart.Some? && o.cronNext.Some? then o.cronNext else p.nextCronRestart)
  }

  function RecoverSlot(p: Proc, o: Outcome): Slot {
    var q := Recovered(p, o);
    if q.desired == WantStopped then Slot(Some(q), None, None, None)
    else if o.spawned.Some? then Attached(Launched(q, o.spawned.value, o.epoch), o)
    else Slot(Some(q.(status := Errored)), None, None, None)
  }

  // ---------------------------------------------------------------------
  // Targets and events
  // ---------------------------------------------------------------------

  /** A target is a name first, a numeric id second. */
  ghost predicate Resolves(processes: map<string, Proc>, target: string, name: string) {
    if target in processes then name == target
    else
      && name in processes
      && Text.ParseUnsigned(target, U64_MAX) == Some(processes[name].id)
  }

  predicate ValidName(name: string) {
    name != "" && name != "all" &&
    forall i :: 0 <= i < |name| ==>
                  var c := name[i];
                  'a' <= c <= 'z' || 'A' <= c <= 'Z' || '0' <= c <= '9' || c == '_' || c == '-'
  }

  /** A start request: whether the command line parses, the requested name or the
      stem to derive one from, the settings, and the log files. */
  datatype StartRequest = StartRequest(
    parses: bool,
    name: Option<string>,
    stem: string,
    config: Config,
    logs: Logs)

  predicate NameAccepted(processes: map<string, Proc>, r: StartRequest) {
    r.parses && (r.name.Some? ==> ValidName(r.name.value) && r.name.value !in processes)
  }

  /** The name an accepted request registers. */
  ghost predicate Names(processes: map<string, Proc>, r: StartRequest, name: string) {
    && NameAccepted(processes, r)
    && (if r.name.Some? then name == r.name.value else AutoName.IsAutoName(processes.Keys, r.stem, name))
  }

  /** One atomic step of the daemon loop. Steps over several processes take the
      environment's answers per name. */
  datatype Event =
    | Start(request: StartRequest, outcome: Outcome)
    | Stop(target: string, outcome: Outcome)
    | StopAll
    | Restart(target: string, outcome: Outcome)
    | RestartAll(order: seq<string>, answers: string -> Outcome)
    | Reload(target: string, outcome: Outcome)
    | Delete(target: string)
    | DeleteAll
    | Pull(service: Option<string>, answers: string -> Outcome)
    | Exit(exit: ExitEvent, outcome: Outcome)
    | RunScheduled(now: nat, answers: string -> Outcome)
    | RunCron(now: nat, answers: string -> Outcome)
    | RunDueWatch(now: nat, answers: string -> Outcome)
    | CheckLimits(answers: string -> Outcome)
    | CheckWatches(answers: string -> Outcome)
    | CheckHealth(now: nat, answers: string -> Outcome)
    | Shutdown
    | DaemonRestart(now: nat, answers: string -> Outcome)

  /** `restart all` stops at the first failure: a process is restarted when every
      earlier one was. */
  ghost predicate ReachedBy(s: State, order: seq<string>, answers: string -> Outcome, name: string) {
    exists k :: 0 <= k < |order| && order[k] == name &&
                forall j :: 0 <= j < k ==> RestartOk(SlotOf(s, order[j]), answers(order[j]))
  }

  /** `restart all` names known processes, and leaves one out only after a failure. */
  ghost predicate RunsToFirstFailure(s: State, order: seq<string>, answers: string -> Outcome) {
    && (forall k :: 0 <= k < |order| ==> order[k] in s.processes)
    && ((forall n :: n in s.processes ==> n in order)
        || (order != [] && !RestartOk(SlotOf(s, order[|order| - 1]), answers(order[|order| - 1]))))
  }

  /** What an event leaves under one name. */
  ghost function Effect(s: State, e: Event, name: string): Slot {
    var x := SlotOf(s, name);
    match e
    case Start(r, o) =>
      if Names(s.processes, r, name) && o.spawned.Some? then
        Attached(Fresh(s.nextId, name, r.config, r.logs, o, o.spawned.value), o).(scheduled := x.scheduled)
      else x
    case Stop(target, o) => if Resolves(s.processes, target, name) then StopSlot(x, o) else x
    case StopAll => StopAllSlot(x)
    case Restart(target, o) => if Resolves(s.processes, target, name) then RestartSlot(x, true, o) else x
    case RestartAll(order, w) => if ReachedBy(s, order, w, name) then RestartSlot(x, true, w(name)) else x
    case Reload(target, o) => if Resolves(s.processes, target, name) then ReloadSlot(x, o) else x
    case Delete(target) => if Resolves(s.processes, target, name) then EMPTY else x
    case DeleteAll => if x.proc.Some? then EMPTY else x
    case Pull(service, w) =>
      if service.Some? ==> Resolves(s.processes, service.value, name) then PullSlot(x, w(name)) else x
    case Exit(exit, o) => if exit.name == name then ExitSlot(x, exit, o) else x
    case RunScheduled(now, w) => ScheduledSlot(x, now, w(name))
    case RunCron(now, w) => CronSlot(x, now, w(name))
    case RunDueWatch(now, w) => DueWatchSlot(x, now, w(name))
    case CheckLimits(w) => LimitSlot(x, w(name))
    case CheckWatches(w) => WatchSlot(x, w(name))
    case CheckHealth(now, w) => HealthSlot(x, now, w(name))
    case Shutdown => ShutdownSlot(x)
    case DaemonRestart(now, w) =>
      if name in s.disk.processes then RecoverSlot(Loaded(s.disk.processes[name], now), w(name)) else EMPTY
  }

  /** The id counter a daemon continues from: past the saved one and every saved id. */
  ghost predicate ContinuesFrom(d: Disk, nextId: nat) {
    && d.nextId <= nextId && 1 <= nextId
    && (forall n :: n in d.processes ==> d.processes[n].id < nextId)
    && (nextId == d.nextId || nextId == 1 || exists n :: n in d.processes && d.processes[n].id + 1 == nextId)
  }

  function Dump(nextId: nat, processes: map<string, Proc>): Disk {
    Disk(nextId, map n | n in processes :: Persisted(processes[n]))
  }

  /** Whenever the records change they are saved, together with the id counter. */
  ghost predicate DiskFollows(s: State, s': State) {
    || s'.disk == Dump(s'.nextId, s'.processes)
    || (s'.disk == s.disk && s'.processes == s.processes)
  }

  ghost predicate NextIdFollows(s: State, e: Event, nextId: nat) {
    match e
    case Start(r, o) => nextId == if NameAccepted(s.processes, r) then SatAdd(s.nextId, 1, U64_MAX) else s.nextId
    case DaemonRestart(_, _) => ContinuesFrom(s.disk, nextId)
    case _ => nextId == s.nextId
  }

  /** The state machine. */
  ghost predicate Next(s: State, e: Event, s': State) {
    && (forall n :: SlotOf(s', n) == Effect(s, e, n))
    && NextIdFollows(s, e, s'.nextId)
    && DiskFollows(s, s')
    && (e.RestartAll? ==> RunsToFirstFailure(s, e.order, e.answers))
  }
}
