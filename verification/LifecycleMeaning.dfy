/** What the steps of the daemon come to for one process, in terms of its record: the
    partner of `Lifecycle`, which says how they are computed. */
module LifecycleMeaning {
  import opened Prelude
  import opened Domain
  import Text
  import CrashLimiter
  import AutoName
  import opened Lifecycle
  import opened LifecycleInvariant

  /** The same process: what requests and timers do not touch. */
  ghost predicate SameProcess(p: Proc, q: Proc) {
    q.id == p.id && q.name == p.name && q.config == p.config && q.logs == p.logs
  }

  /** Up with this child, with nothing pending, a watch baseline if it is watched, and the
      next health check a full interval away. */
  ghost predicate Up(p: Proc, y: Slot, pid: nat, o: Outcome) {
    && y.proc.Some? && SameProcess(p, y.proc.value)
    && y.proc.value.pid == Some(pid) && y.proc.value.status == Running && y.proc.value.desired == WantRunning
    && y.scheduled.None? && y.pending.None? && y.watched == (if p.config.watch then o.rescan else None)
    && (p.config.healthCheck.None? ==> y.proc.value.nextHealthCheck.None?)
    && (p.config.healthCheck.Some? && o.epoch + p.config.healthCheck.value.intervalSecs + 1 <= U64_MAX ==>
          y.proc.value.nextHealthCheck == Some(o.epoch + if p.config.healthCheck.value.intervalSecs == 0 then 1
                                                         else p.config.healthCheck.value.intervalSecs))
  }

  /** Down, with nothing pending. */
  ghost predicate Down(p: Proc, y: Slot, status: Status, desired: Desired) {
    && y.proc.Some? && SameProcess(p, y.proc.value)
    && y.proc.value.pid.None? && y.proc.value.status == status && y.proc.value.desired == desired
    && y.scheduled.None? && y.pending.None? && y.watched.None?
  }

  ghost predicate CountedOnce(p: Proc, q: Proc) {
    q.restartCount == if p.restartCount >= U32_MAX then U32_MAX else p.restartCount + 1
  }

  ghost predicate OthersStay(s: State, s': State, n: string) {
    forall m :: m != n ==> SlotOf(s', m) == SlotOf(s, m)
  }

  ghost predicate AllStay(s: State, s': State) {
    forall m :: SlotOf(s', m) == SlotOf(s, m)
  }

  // ---------------------------------------------------------------------
  // Exit events
  // ---------------------------------------------------------------------

  /** The policy wants a restart after such an exit, and the budget has one left. */
  ghost predicate MayRestart(p: Proc, e: ExitEvent) {
    && !e.waitError && p.restartCount < p.config.maxRestarts
    && (p.config.restartPolicy == Always || (p.config.restartPolicy == OnFailure && !e.success))
  }

  /** As many automatic restarts as allowed were recorded in the last five minutes. */
  ghost predicate CrashLoops(p: Proc, now: nat) {
    p.config.crashRestartLimit > 0 && |CrashLimiter.RecentRestarts(p.history, now)| >= p.config.crashRestartLimit
  }

  /** What the end of its child leaves of a process. */
  ghost predicate AfterExit(p: Proc, e: ExitEvent, o: Outcome, y: Slot) {
    if p.desired == WantStopped then Down(p, y, Stopped, WantStopped)
    else if !MayRestart(p, e) then
      Down(p, y, if e.waitError then Errored else if e.success then Stopped else Crashed, WantRunning)
    else if CrashLoops(p, o.epoch) then
      Down(p, y, Errored, WantStopped) && y.proc.value.restartCount == p.restartCount
    else RestartsAfterExit(p, o, y)
  }

  /** It restarts: after the backoff if there is one, else at once. A child that ran for a
      minute starts the backoff anew. */
  ghost predicate RestartsAfterExit(p: Proc, o: Outcome, y: Slot) {
    var attempt := if p.lastStartedAt.Some? && o.epoch >= p.lastStartedAt.value + 60 then 0 else p.backoffAttempt;
    && y.proc.Some? && CountedOnce(p, y.proc.value)
    && y.proc.value.backoffAttempt == (if attempt < U32_MAX then attempt + 1 else U32_MAX)
    && (p.config.crashRestartLimit > 0 ==>
          y.proc.value.history != [] && y.proc.value.history[|y.proc.value.history| - 1] == o.epoch)
    && if p.config.restartDelaySecs > 0 then
         && SameProcess(p, y.proc.value) && y.proc.value.pid.None? && y.proc.value.status == Restarting
         && y.proc.value.desired == WantRunning && y.pending.None? && y.watched.None?
         && y.scheduled == Some(o.instant + RestartDelay(p.config, attempt, o.jitter))
       else if o.spawned.Some? then
         Up(p, y, o.spawned.value, o) && y.proc.value.lastStartedAt == Some(o.epoch)
       else Down(p, y, Errored, WantStopped)
  }

  /** An exit event counts when it names the current child. Without a child it counts for a
      process that is to be stopped; one that is to run has its next child on the way. */
  lemma ExitMeans(s: State, e: ExitEvent, o: Outcome, s': State)
    requires Next(s, Exit(e, o), s')
    ensures OthersStay(s, s', e.name)
    ensures e.name !in s.processes ==> AllStay(s, s')
    ensures e.name in s.processes && s.processes[e.name].pid.Some? && s.processes[e.name].pid != Some(e.pid) ==>
              AllStay(s, s')
    ensures e.name in s.processes && s.processes[e.name].pid.None? && s.processes[e.name].desired == WantRunning ==>
              AllStay(s, s')
    ensures e.name in s.processes && s.processes[e.name].pid == Some(e.pid) ==>
              AfterExit(s.processes[e.name], e, o, SlotOf(s', e.name))
    ensures e.name in s.processes && s.processes[e.name].pid.None? && s.processes[e.name].desired == WantStopped ==>
              Down(s.processes[e.name], SlotOf(s', e.name), Stopped, WantStopped)
  {
    ExitTouchesOne(s, e, o, s');
    ExitSlotIgnores(SlotOf(s, e.name), e, o);
    if e.name in s.processes && s.processes[e.name].pid == Some(e.pid) {
      ExitSlotMeans(SlotOf(s, e.name), e, o);
    }
  }

  lemma ExitTouchesOne(s: State, e: ExitEvent, o: Outcome, s': State)
    requires Next(s, Exit(e, o), s')
    ensures OthersStay(s, s', e.name) && SlotOf(s', e.name) == ExitSlot(SlotOf(s, e.name), e, o)
  {
    forall m ensures SlotOf(s', m) == Effect(s, Exit(e, o), m) {
    }
  }

  lemma ExitSlotIgnores(x: Slot, e: ExitEvent, o: Outcome)
    ensures x.proc.None? ==> ExitSlot(x, e, o) == x
    ensures x.proc.Some? && x.proc.value.pid.Some? && x.proc.value.pid != Some(e.pid) ==> ExitSlot(x, e, o) == x
    ensures x.proc.Some? && x.proc.value.pid.None? && x.proc.value.desired == WantRunning ==> ExitSlot(x, e, o) == x
    ensures x.proc.Some? && x.proc.value.pid.None? && x.proc.value.desired == WantStopped ==>
              Down(x.proc.value, ExitSlot(x, e, o), Stopped, WantStopped)
  {
  }

  lemma ExitSlotMeans(x: Slot, e: ExitEvent, o: Outcome)
    requires x.proc.Some? && x.proc.value.pid == Some(e.pid)
    ensures AfterExit(x.proc.value, e, o, ExitSlot(x, e, o))
  {
    var p := x.proc.value;
    CrashLimiter.LimitReachedIff(p.history, p.config.crashRestartLimit, o.epoch);
    if p.desired == WantRunning && MayRestart(p, e) && !CrashLoops(p, o.epoch) {
      AutoRestartMeans(p.(pid := None), o);
    }
  }

  ghost predicate AutoRestarted(p: Proc, o: Outcome, y: Slot) {
    p.pid.None? && p.desired == WantRunning ==>
      if CrashLoops(p, o.epoch) then Down(p, y, Errored, WantStopped) else RestartsAfterExit(p, o, y)
  }

  lemma AutoRestartMeans(p: Proc, o: Outcome)
    ensures AutoRestarted(p, o, AutoRestartSlot(p, o))
  {
    CrashLimiter.LimitReachedIff(p.history, p.config.crashRestartLimit, o.epoch);
  }

  // ---------------------------------------------------------------------
  // Backoff
  // ---------------------------------------------------------------------

  /** The delay before the first restart is the configured one plus a jitter, at most as
      long again. From then on the delay without the jitter doubles, eight times at most, up
      to five minutes or the configured delay. */
  lemma DelayGrows(c: Config, attempt: nat, seed: nat)
    requires c.restartDelaySecs > 0
    ensures c.restartDelaySecs <= RestartDelay(c, 0, seed) <= 2 * c.restartDelaySecs
    ensures RestartDelay(c, attempt, seed) <= Cap(c)
    ensures attempt >= 8 ==> RestartDelay(c, attempt, seed) == RestartDelay(c, 8, seed)
    ensures attempt < 8 ==>
              RestartDelay(c, attempt + 1, seed)
              == Doubled(RestartDelay(c, attempt, seed), RestartDelay(c, 0, seed) - c.restartDelaySecs, Cap(c))
  {
    DelayIs(c, 0, seed);
    DelayIs(c, attempt, seed);
    if attempt < 8 {
      DelayIs(c, attempt + 1, seed);
      Doubles(c.restartDelaySecs, Pow2(attempt), Jitter(c, seed), Cap(c));
    }
  }

  ghost function Cap(c: Config): nat {
    if c.restartDelaySecs > 300 then c.restartDelaySecs else 300
  }

  /** Twice the delay but for the jitter, unless that is over the cap. */
  ghost function Doubled(delay: nat, jitter: int, cap: nat): int {
    if delay == cap || 2 * (delay - jitter) + jitter > cap then cap else 2 * (delay - jitter) + jitter
  }

  ghost function Jitter(c: Config, seed: nat): nat
    requires c.restartDelaySecs > 0
  {
    if c.restartDelaySecs > 1 then seed % c.restartDelaySecs else seed % 2
  }

  lemma DelayIs(c: Config, attempt: nat, seed: nat)
    requires c.restartDelaySecs > 0
    ensures RestartDelay(c, attempt, seed)
            == Capped(c.restartDelaySecs * Pow2(if attempt < 8 then attempt else 8) + Jitter(c, seed), Cap(c))
  {
  }

  ghost function Capped(delay: nat, cap: nat): nat {
    if delay < cap then delay else cap
  }

  /** The jitter shows in the first delay unless that is capped, and then all are. */
  lemma Doubles(base: nat, factor: nat, jitter: nat, cap: nat)
    requires 0 < factor && base <= cap
    ensures Capped(base * (2 * factor) + jitter, cap)
            == Doubled(Capped(base * factor + jitter, cap), Capped(base + jitter, cap) - base, cap)
  {
    assert base * (2 * factor) == 2 * (base * factor) && base * factor >= base;
  }

  // ---------------------------------------------------------------------
  // Requests
  // ---------------------------------------------------------------------

  /** A request names a process by its name, or by its id if no process has that name. */
  lemma TargetMeans(s: State, n: string)
    requires Inv(s) && n in s.processes && s.processes[n].id <= U64_MAX
    ensures forall m :: Resolves(s.processes, n, m) <==> m == n
    ensures var id := Text.Decimal(s.processes[n].id);
            id !in s.processes ==> forall m :: Resolves(s.processes, id, m) <==> m == n
  {
    var id := Text.Decimal(s.processes[n].id);
    Text.DecimalParses(s.processes[n].id, U64_MAX);
    if id !in s.processes {
      forall m ensures Resolves(s.processes, id, m) <==> m == n {
      }
    }
  }

  /** A name the daemon accepts from a request. */
  ghost predicate Acceptable(name: string) {
    && name != "" && name != "all"
    && forall i :: 0 <= i < |name| ==>
                     'a' <= name[i] <= 'z' || 'A' <= name[i] <= 'Z' || '0' <= name[i] <= '9' || name[i] == '_' || name[i] == '-'
  }

  /** A named start is accepted exactly when the command line parses, the name is in order
      and free, and the child comes up; then it runs under the next id, with the given
      settings and all counters at zero. */
  lemma StartMeans(s: State, r: StartRequest, o: Outcome, s': State)
    requires Next(s, Start(r, o), s') && r.name.Some? && Inv(s)
    ensures var n := r.name.value;
            if r.parses && Acceptable(n) && n !in s.processes && o.spawned.Some? then
              && n in s'.processes && OthersStay(s, s', n)
              && Up(s'.processes[n], SlotOf(s', n), o.spawned.value, o)
              && s'.processes[n].id == s.nextId && s'.processes[n].name == n && s'.processes[n].logs == r.logs
              && StoredFrom(r.config, s'.processes[n].config)
              && s'.processes[n].restartCount == 0 && s'.processes[n].history == []
              && s'.processes[n].lastStartedAt == Some(o.epoch)
              && s'.processes[n].nextCronRestart == (if r.config.cronRestart.Some? then o.cronNext else None)
            else AllStay(s, s')
  {
    var n := r.name.value;
    assert SlotOk(n, SlotOf(s, n));
    forall m ensures SlotOf(s', m) == Effect(s, Start(r, o), m) {
    }
    assert ValidName(n) <==> Acceptable(n);
    if r.parses && Acceptable(n) && n !in s.processes && o.spawned.Some? {
      assert SlotOf(s', n).proc.Some?;
    }
  }

  /** Stored as given, but for two times of at least a second and a number of cluster
      instances that is not zero. */
  ghost predicate StoredFrom(given: Config, stored: Config) {
    && stored == given.(stopTimeoutSecs := stored.stopTimeoutSecs, readyTimeoutSecs := stored.readyTimeoutSecs,
                        clusterInstances := stored.clusterInstances)
    && stored.stopTimeoutSecs == (if given.stopTimeoutSecs == 0 then 1 else given.stopTimeoutSecs)
    && stored.readyTimeoutSecs == (if given.readyTimeoutSecs == 0 then 1 else given.readyTimeoutSecs)
    && stored.clusterInstances == (if given.clusterInstances == Some(0) then None else given.clusterInstances)
  }

  /** A stop leaves the process down and wanted stopped, its history forgotten, unless its
      child cannot be terminated. */
  lemma StopMeans(s: State, n: string, o: Outcome, s': State)
    requires Next(s, Stop(n, o), s') && n in s.processes
    ensures OthersStay(s, s', n)
    ensures if s.processes[n].pid.Some? && !o.terminated then AllStay(s, s')
            else Parks(s.processes[n], SlotOf(s', n)) && SlotOf(s', n).proc.value.healthFailures == 0
  {
    forall m ensures SlotOf(s', m) == Effect(s, Stop(n, o), m) {
    }
    assert forall m :: Resolves(s.processes, n, m) <==> m == n;
  }

  ghost predicate Parks(p: Proc, y: Slot) {
    && Down(p, y, Stopped, WantStopped) && y.proc.value.history == [] && y.proc.value.backoffAttempt == 0
    && y.proc.value.nextHealthCheck.None? && y.proc.value.restartCount == p.restartCount
  }

  /** `stop all` and a shutdown park every process, whatever cannot be terminated. */
  lemma StopAllMeans(s: State, e: Event, s': State, n: string)
    requires (e == StopAll || e == Shutdown) && Next(s, e, s') && n in s.processes
    ensures Parks(s.processes[n], SlotOf(s', n))
    ensures SlotOf(s', n).proc.value.healthFailures == if e == StopAll then 0 else s.processes[n].healthFailures
  {
    assert SlotOf(s', n) == Effect(s, e, n);
  }

  /** An explicit restart, or that of all processes: up with a new child and counters at
      zero; given up if there is no new child; as it was if the old one does not end. */
  ghost predicate ExplicitRestart(x: Slot, o: Outcome, y: Slot)
    requires x.proc.Some?
  {
    var p := x.proc.value;
    if p.pid.Some? && !o.terminated then y == x
    else
      && y.proc.Some? && y.proc.value.restartCount == 0 && y.proc.value.history == []
      && y.proc.value.backoffAttempt == 0 && y.proc.value.healthFailures == 0
      && if o.spawned.Some? then Up(p, y, o.spawned.value, o) && y.proc.value.lastStartedAt == Some(o.epoch)
         else Down(p, y, Errored, WantStopped)
  }

  lemma RestartMeans(s: State, n: string, o: Outcome, s': State)
    requires Next(s, Restart(n, o), s') && n in s.processes
    ensures OthersStay(s, s', n) && ExplicitRestart(SlotOf(s, n), o, SlotOf(s', n))
  {
    forall m ensures SlotOf(s', m) == Effect(s, Restart(n, o), m) {
    }
    assert forall m :: Resolves(s.processes, n, m) <==> m == n;
    RestartSlotMeans(SlotOf(s, n), o);
  }

  /** A reload brings up the new child before the old one goes: without a new child, or when
      the command before it fails, the old one stays. A process that is down is restarted. */
  ghost predicate Reloads(x: Slot, o: Outcome, y: Slot)
    requires x.proc.Some?
  {
    var p := x.proc.value;
    if p.config.preReloadCmd.Some? && !o.preReloadOk then y == x
    else if p.pid.None? then ExplicitRestart(x, o, y)
    else if o.spawned.None? then y == x
    else
      && Up(p, y, o.spawned.value, o) && y.proc.value.restartCount == p.restartCount
      && y.proc.value.history == [] && y.proc.value.healthFailures == 0
  }

  lemma ReloadMeans(s: State, n: string, o: Outcome, s': State)
    requires Next(s, Reload(n, o), s') && n in s.processes
    ensures OthersStay(s, s', n) && Reloads(SlotOf(s, n), o, SlotOf(s', n))
  {
    forall m ensures SlotOf(s', m) == Effect(s, Reload(n, o), m) {
    }
    assert forall m :: Resolves(s.processes, n, m) <==> m == n;
    ReloadSlotMeans(SlotOf(s, n), o);
  }

  /** A pull starts a process anew when the repository changed and it is up or should be. */
  ghost predicate Pulls(x: Slot, o: Outcome, y: Slot)
    requires x.proc.Some?
  {
    var p := x.proc.value;
    if p.config.gitRepo.None? || p.config.cwd.None? || o.pull != Changed then y == x
    else if p.status == Running && p.pid.Some? then Reloads(x, o, y)
    else if p.desired == WantRunning then ExplicitRestart(x, o, y)
    else y == x
  }

  lemma PullMeans(s: State, service: Option<string>, w: string -> Outcome, s': State, n: string)
    requires Next(s, Pull(service, w), s') && n in s.processes
    ensures service == None || service == Some(n) ==> Pulls(SlotOf(s, n), w(n), SlotOf(s', n))
    ensures service.Some? && service.value != n && service.value in s.processes ==> SlotOf(s', n) == SlotOf(s, n)
  {
    assert SlotOf(s', n) == Effect(s, Pull(service, w), n);
    PullSlotMeans(SlotOf(s, n), w(n));
  }

  lemma PullSlotMeans(x: Slot, o: Outcome)
    requires x.proc.Some?
    ensures Pulls(x, o, PullSlot(x, o))
  {
    ReloadSlotMeans(x, o);
    RestartSlotMeans(x, o);
  }

  lemma ReloadSlotMeans(x: Slot, o: Outcome)
    requires x.proc.Some?
    ensures Reloads(x, o, ReloadSlot(x, o))
  {
    RestartSlotMeans(x, o);
  }

  lemma RestartSlotMeans(x: Slot, o: Outcome)
    requires x.proc.Some?
    ensures ExplicitRestart(x, o, RestartSlot(x, true, o))
  {
  }

  // ---------------------------------------------------------------------
  // Timers and checks
  // ---------------------------------------------------------------------

  /** A restart the daemon makes on its own is counted. Failing to end the old child is an
      error that leaves it running; without a new child the process is given up. The watch
      baseline may be set to what called for the restart. */
  ghost predicate OwnRestart(x: Slot, o: Outcome, y: Slot)
    requires x.proc.Some?
  {
    var p := x.proc.value;
    if p.pid.Some? && !o.terminated then y.proc == Some(p.(status := Errored))
    else if o.spawned.None? then Down(p, y, Errored, WantStopped) && y.proc.value.restartCount == p.restartCount
    else
      && y.proc.Some? && CountedOnce(p, y.proc.value) && y.proc.value.history == p.history
      && Up(p, y.(watched := if p.config.watch then o.rescan else None), o.spawned.value, o)
  }

  lemma TriggeredMeans(x: Slot, o: Outcome)
    requires x.proc.Some?
    ensures OwnRestart(x, o, TriggeredSlot(x, x.proc.value.restartCount, o))
  {
  }

  /** The restart goes through: the old child ends and a new one comes up. */
  ghost predicate GoesThrough(p: Proc, o: Outcome) {
    (p.pid.Some? ==> o.terminated) && o.spawned.Some?
  }

  /** Given up; what is scheduled or pending beside the record stays. */
  ghost predicate GivenUp(x: Slot, y: Slot) {
    && x.proc.Some? && y.proc.Some? && SameProcess(x.proc.value, y.proc.value) && y.proc.value.pid.None?
    && y.proc.value.status == Errored && y.proc.value.desired == WantStopped
    && y.proc.value.restartCount == x.proc.value.restartCount && y == x.(proc := y.proc)
  }

  /** A cron restart happens when its time has come and the process runs as it should. */
  ghost predicate Crons(x: Slot, now: nat, o: Outcome, y: Slot)
    requires x.proc.Some?
  {
    var p := x.proc.value;
    if p.config.cronRestart.Some? && p.nextCronRestart.Some? && p.nextCronRestart.value <= now
       && p.status == Running && p.desired == WantRunning
    then
      && y.proc.Some? && OwnRestart(x, o, y)
      && (GoesThrough(p, o) && o.cronNext.Some? ==> y.proc.value.nextCronRestart == o.cronNext)
    else y == x
  }

  lemma CronMeans(s: State, now: nat, w: string -> Outcome, s': State, n: string)
    requires Next(s, RunCron(now, w), s') && n in s.processes
    ensures Crons(SlotOf(s, n), now, w(n), SlotOf(s', n))
  {
    assert SlotOf(s', n) == Effect(s, RunCron(now, w), n);
    CronSlotMeans(SlotOf(s, n), now, w(n));
  }

  lemma CronSlotMeans(x: Slot, now: nat, o: Outcome)
    requires x.proc.Some?
    ensures Crons(x, now, o, CronSlot(x, now, o))
  {
    TriggeredMeans(x, o);
  }

  /** A pending watch restart happens when it falls due, if the process still runs and is
      watched; the scan that armed it becomes the baseline. */
  ghost predicate WatchFallsDue(x: Slot, now: nat, o: Outcome, y: Slot) {
    if x.pending.None? || x.pending.value.dueAt > now then y == x
    else
      && y.pending.None?
      && if x.proc.Some? && x.proc.value.config.watch && x.proc.value.status == Running && x.proc.value.pid.Some? then
           OwnRestart(x, o, y) && (GoesThrough(x.proc.value, o) ==> y.watched == Some(x.pending.value.fingerprint))
         else y == x.(pending := None)
  }

  lemma DueWatchMeans(s: State, now: nat, w: string -> Outcome, s': State, n: string)
    requires Next(s, RunDueWatch(now, w), s')
    ensures WatchFallsDue(SlotOf(s, n), now, w(n), SlotOf(s', n))
  {
    assert SlotOf(s', n) == Effect(s, RunDueWatch(now, w), n);
    DueWatchSlotMeans(SlotOf(s, n), now, w(n));
  }

  lemma DueWatchSlotMeans(x: Slot, now: nat, o: Outcome)
    ensures WatchFallsDue(x, now, o, DueWatchSlot(x, now, o))
  {
    if x.proc.Some? {
      TriggeredMeans(x.(pending := None), o);
    }
  }

  /** A process over its limits is restarted while the budget lasts, then given up. */
  ghost predicate Enforced(x: Slot, o: Outcome, y: Slot)
    requires x.proc.Some?
  {
    var p := x.proc.value;
    if p.status != Running || p.pid.None? || p.config.resourceLimits.None? || !o.overLimit then y == x
    else if p.restartCount < p.config.maxRestarts then OwnRestart(x, o, y)
    else GivenUp(x, y)
  }

  lemma LimitMeans(s: State, w: string -> Outcome, s': State, n: string)
    requires Next(s, CheckLimits(w), s') && n in s.processes
    ensures Enforced(SlotOf(s, n), w(n), SlotOf(s', n))
  {
    assert SlotOf(s', n) == Effect(s, CheckLimits(w), n);
    LimitSlotMeans(SlotOf(s, n), w(n));
  }

  lemma LimitSlotMeans(x: Slot, o: Outcome)
    requires x.proc.Some?
    ensures Enforced(x, o, LimitSlot(x, o))
  {
    TriggeredMeans(x, o);
  }

  /** The first scan is the baseline. A later one that differs restarts the process, at
      once or after the delay, counted anew from each scan that differs; one that does not
      calls off what is pending. */
  ghost predicate Scanned(x: Slot, o: Outcome, y: Slot)
    requires x.proc.Some?
  {
    var p := x.proc.value;
    if !p.config.watch || p.status != Running || p.pid.None? || o.scan.None? then y == x
    else if x.watched.None? then y == x.(watched := o.scan)
    else if x.watched == o.scan then y == x.(pending := None)
    else if p.config.watchDelaySecs > 0 then
      y == x.(pending := Some(Pending(o.instant + p.config.watchDelaySecs, o.scan.value)))
    else OwnRestart(x, o, y) && y.pending.None? && (GoesThrough(p, o) ==> y.watched == o.scan)
  }

  lemma WatchMeans(s: State, w: string -> Outcome, s': State, n: string)
    requires Next(s, CheckWatches(w), s') && n in s.processes
    ensures Scanned(SlotOf(s, n), w(n), SlotOf(s', n))
  {
    assert SlotOf(s', n) == Effect(s, CheckWatches(w), n);
    WatchSlotMeans(SlotOf(s, n), w(n));
  }

  lemma WatchSlotMeans(x: Slot, o: Outcome)
    requires x.proc.Some?
    ensures Scanned(x, o, WatchSlot(x, o))
  {
    TriggeredMeans(x, o);
  }

  /** A health check that is due counts failures in a row; the one that makes them too many
      restarts the process while the budget lasts, then gives it up. */
  ghost predicate HealthChecked(x: Slot, now: nat, o: Outcome, y: Slot)
    requires x.proc.Some?
  {
    var p := x.proc.value;
    if p.config.healthCheck.None? || p.status != Running || p.pid.None?
       || (p.nextHealthCheck.Some? && p.nextHealthCheck.value > now) then y == x
    else if o.healthy then OnlyChecked(x, y, 0)
    else if p.healthFailures + 1 < p.config.healthCheck.value.maxFailures then OnlyChecked(x, y, p.healthFailures + 1)
    else if p.restartCount >= p.config.maxRestarts then GivenUp(x, y)
    else exists z :: OnlyChecked(x, z, 0) && OwnRestart(z, o, y)
  }

  /** Nothing changed but the state of the checks, with so many failures in a row. */
  ghost predicate OnlyChecked(x: Slot, y: Slot, failures: nat) {
    && x.proc.Some? && y.proc.Some? && y.proc.value.healthFailures == failures
    && y == x.(proc := Some(x.proc.value.(healthFailures := failures, nextHealthCheck := y.proc.value.nextHealthCheck)))
  }

  lemma HealthMeans(s: State, now: nat, w: string -> Outcome, s': State, n: string)
    requires Next(s, CheckHealth(now, w), s') && n in s.processes && s.processes[n].healthFailures < U32_MAX
    ensures HealthChecked(SlotOf(s, n), now, w(n), SlotOf(s', n))
  {
    assert SlotOf(s', n) == Effect(s, CheckHealth(now, w), n);
    HealthSlotMeans(SlotOf(s, n), now, w(n));
  }

  lemma HealthSlotMeans(x: Slot, now: nat, o: Outcome)
    requires x.proc.Some? && x.proc.value.healthFailures < U32_MAX
    ensures HealthChecked(x, now, o, HealthSlot(x, now, o))
  {
    if HealthDue(x, now) {
      var z := x.(proc := Some(Checked(x.proc.value, now, o)));
      TriggeredMeans(z, o);
      assert OnlyChecked(x, z, z.proc.value.healthFailures);
    }
  }

  // ---------------------------------------------------------------------
  // Daemon start
  // ---------------------------------------------------------------------

  /** A daemon that starts brings up again what should run, and leaves the rest down.
      Without a child a process is in error, but still wanted. */
  ghost predicate Recovers(p: Proc, o: Outcome, y: Slot) {
    && y.proc.Some? && y.proc.value.restartCount == p.restartCount && y.proc.value.history == p.history
    && y.proc.value.nextCronRestart == (if p.config.cronRestart.Some? then o.cronNext else None)
    && if p.desired == WantStopped then Down(p, y, Stopped, WantStopped)
       else if o.spawned.Some? then Up(p, y, o.spawned.value, o)
       else Down(p, y, Errored, WantRunning)
  }

  lemma RecoveryMeans(s: State, now: nat, w: string -> Outcome, s': State, n: string)
    requires Inv(s) && Next(s, DaemonRestart(now, w), s')
    ensures n in s.processes ==> Recovers(s.processes[n], w(n), SlotOf(s', n))
    ensures n !in s.processes ==> SlotOf(s', n) == EMPTY
  {
    assert SlotOf(s', n) == Effect(s, DaemonRestart(now, w), n);
    assert SlotOk(n, SlotOf(s, n));
    if n in s.processes {
      assert s.disk.processes[n] == Persisted(s.processes[n]);
      RecoverSlotMeans(s.processes[n], now, w(n));
    } else {
      assert n !in s.disk.processes;
    }
  }

  lemma RecoverSlotMeans(p: Proc, now: nat, o: Outcome)
    requires p.config == Normalized(p.config)
    ensures Recovers(p, o, RecoverSlot(Loaded(Persisted(p), now), o))
  {
  }
}
