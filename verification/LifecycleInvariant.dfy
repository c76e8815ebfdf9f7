/** What every transition of the lifecycle keeps, and what holds over all runs. */
module LifecycleInvariant {
  import opened Prelude
  import opened Domain
  import opened Lifecycle
  import AutoName

  // ---------------------------------------------------------------------
  // The invariant under one name
  // ---------------------------------------------------------------------

  /** Running means a live pid and a wish to run; a stopped wish means no pid;
      restarting means exactly one delayed restart is scheduled. */
  ghost predicate ProcOk(name: string, p: Proc, x: Slot) {
    && p.name == name
    && (p.status == Running ==> p.pid.Some? && p.desired == WantRunning)
    && (p.desired == WantStopped ==> p.pid.None?)
    && (p.status == Restarting <==> x.scheduled.Some?)
    && (p.status == Restarting ==> p.pid.None? && p.desired == WantRunning)
    && (x.pending.Some? || x.watched.Some? ==> p.config.watch)
    && (p.config.crashRestartLimit > 0 ==> |p.history| <= p.config.crashRestartLimit)
    && p.config == Normalized(p.config)
  }

  ghost predicate SlotOk(name: string, x: Slot) {
    if x.proc.None? then x == EMPTY else ProcOk(name, x.proc.value, x)
  }

  lemma RestartKeeps(name: string, x: Slot, reset: bool, o: Outcome)
    requires SlotOk(name, x)
    ensures SlotOk(name, RestartSlot(x, reset, o))
    ensures RestartOk(x, o) ==> IsUp(RestartSlot(x, reset, o).proc.value)
  {
  }

  lemma TriggeredKeeps(name: string, x: Slot, count: nat, o: Outcome)
    requires SlotOk(name, x) && x.proc.Some? && x.proc.value.status != Restarting
    ensures SlotOk(name, TriggeredSlot(x, count, o))
  {
    RestartKeeps(name, x, false, o);
  }

  lemma RequestKeeps(name: string, x: Slot, o: Outcome)
    requires SlotOk(name, x)
    ensures SlotOk(name, StopSlot(x, o)) && SlotOk(name, StopAllSlot(x)) && SlotOk(name, ShutdownSlot(x))
    ensures SlotOk(name, ReloadSlot(x, o))
    ensures SlotOk(name, PullSlot(x, o))
  {
    RestartKeeps(name, x, true, o);
  }

  lemma ExitKeeps(name: string, x: Slot, e: ExitEvent, o: Outcome)
    requires SlotOk(name, x)
    ensures SlotOk(name, ExitSlot(x, e, o))
  {
  }

  lemma ScheduledKeeps(name: string, x: Slot, now: nat, o: Outcome)
    requires SlotOk(name, x)
    ensures SlotOk(name, ScheduledSlot(x, now, o))
  {
  }

  lemma CronKeeps(name: string, x: Slot, now: nat, o: Outcome)
    requires SlotOk(name, x)
    ensures SlotOk(name, CronSlot(x, now, o))
  {
    if CronDue(x, now) {
      TriggeredKeeps(name, x, x.proc.value.restartCount, o);
    }
  }

  lemma DueWatchKeeps(name: string, x: Slot, now: nat, o: Outcome)
    requires SlotOk(name, x)
    ensures SlotOk(name, DueWatchSlot(x, now, o))
  {
    if WatchDue(x, now) && IsUp(x.proc.value) {
      TriggeredKeeps(name, x.(pending := None), x.proc.value.restartCount, o);
      RestartKeeps(name, x.(pending := None), false, o);
    }
  }

  lemma LimitKeeps(name: string, x: Slot, o: Outcome)
    requires SlotOk(name, x)
    ensures SlotOk(name, LimitSlot(x, o))
  {
    if LimitViolated(x, o) {
      TriggeredKeeps(name, x, x.proc.value.restartCount, o);
    }
  }

  lemma WatchKeeps(name: string, x: Slot, o: Outcome)
    requires SlotOk(name, x)
    ensures SlotOk(name, WatchSlot(x, o))
  {
    if WatchCandidate(x) {
      TriggeredKeeps(name, x, x.proc.value.restartCount, o);
      RestartKeeps(name, x, false, o);
    }
  }

  lemma HealthKeeps(name: string, x: Slot, now: nat, o: Outcome)
    requires SlotOk(name, x)
    ensures SlotOk(name, HealthSlot(x, now, o))
  {
    if HealthDue(x, now) {
      TriggeredKeeps(name, x.(proc := Some(Checked(x.proc.value, now, o))), x.proc.value.restartCount, o);
    }
  }

  lemma RecoverKeeps(name: string, p: Proc, now: nat, o: Outcome)
    requires p.name == name && p.config == Normalized(p.config)
    requires p.config.crashRestartLimit > 0 ==> |p.history| <= p.config.crashRestartLimit
    ensures SlotOk(name, RecoverSlot(Loaded(p, now), o))
  {
  }

  lemma FreshOk(id: nat, name: string, config: Config, logs: Logs, o: Outcome, pid: nat)
    ensures SlotOk(name, Attached(Fresh(id, name, config, logs, o, pid), o))
  {
  }

  // ---------------------------------------------------------------------
  // The global invariant
  // ---------------------------------------------------------------------

  /** Every entry is consistent, ids are unique and below both counters, and the
      state file holds exactly the current records. */
  ghost predicate Inv(s: State) {
    && (forall n :: SlotOk(n, SlotOf(s, n)))
    && (forall m, n :: m in s.processes && n in s.processes && s.processes[m].id == s.processes[n].id ==> m == n)
    && (forall n :: n in s.processes ==> s.processes[n].id < s.disk.nextId)
    && 1 <= s.disk.nextId <= s.nextId
    && s.disk.processes == Dump(s.nextId, s.processes).processes
  }

  const INITIAL := State(map[], map[], map[], map[], 1, Disk(1, map[]))

  lemma InitialInv()
    ensures Inv(INITIAL)
  {
  }

  /** Only the request that starts a process uses up an id, and the counter must
      not have reached its end (where it saturates). */
  ghost predicate CounterHasRoom(s: State, e: Event) {
    e.Start? ==> s.nextId < U64_MAX
  }

  ghost predicate IsRequest(e: Event) {
    e.Start? || e.Stop? || e.StopAll? || e.Restart? || e.RestartAll? || e.Reload? || e.Delete? || e.DeleteAll?
    || e.Pull? || e.Shutdown?
  }

  lemma RequestEffectOk(s: State, e: Event, n: string)
    requires SlotOk(n, SlotOf(s, n)) && IsRequest(e)
    ensures SlotOk(n, Effect(s, e, n))
  {
    var x := SlotOf(s, n);
    match e
    case Start(r, o) =>
      if Names(s.processes, r, n) && o.spawned.Some? {
        FreshOk(s.nextId, n, r.config, r.logs, o, o.spawned.value);
        assert x == EMPTY;
      }
    case Stop(_, o) => RequestKeeps(n, x, o);
    case Restart(_, o) => RestartKeeps(n, x, true, o);
    case RestartAll(_, w) => RestartKeeps(n, x, true, w(n));
    case Reload(_, o) => RequestKeeps(n, x, o);
    case Pull(_, w) => RequestKeeps(n, x, w(n));
    case _ =>
  }

  lemma PeriodicEffectOk(s: State, e: Event, n: string)
    requires SlotOk(n, SlotOf(s, n)) && !IsRequest(e)
    requires n in s.disk.processes ==>
               var p := s.disk.processes[n];
               && p.name == n && p.config == Normalized(p.config)
               && (p.config.crashRestartLimit > 0 ==> |p.history| <= p.config.crashRestartLimit)
    ensures SlotOk(n, Effect(s, e, n))
  {
    var x := SlotOf(s, n);
    match e
    case Exit(exit, o) => ExitKeeps(n, x, exit, o);
    case RunScheduled(now, w) => ScheduledKeeps(n, x, now, w(n));
    case RunCron(now, w) => CronKeeps(n, x, now, w(n));
    case RunDueWatch(now, w) => DueWatchKeeps(n, x, now, w(n));
    case CheckLimits(w) => LimitKeeps(n, x, w(n));
    case CheckWatches(w) => WatchKeeps(n, x, w(n));
    case CheckHealth(now, w) => HealthKeeps(n, x, now, w(n));
    case DaemonRestart(now, w) =>
      if n in s.disk.processes {
        RecoverKeeps(n, s.disk.processes[n], now, w(n));
      }
  }

  lemma EffectOk(s: State, e: Event, n: string)
    requires Inv(s)
    ensures SlotOk(n, Effect(s, e, n))
  {
    assert SlotOk(n, SlotOf(s, n));
    if IsRequest(e) {
      RequestEffectOk(s, e, n);
    } else {
      PeriodicEffectOk(s, e, n);
    }
  }

  /** No operation on an existing record changes its id, or creates one. */
  ghost predicate SameId(x: Slot, y: Slot) {
    y.proc.Some? ==> x.proc.Some? && y.proc.value.id == x.proc.value.id
  }

  lemma RequestsKeepId(x: Slot, reset: bool, o: Outcome)
    ensures SameId(x, StopSlot(x, o)) && SameId(x, StopAllSlot(x)) && SameId(x, ShutdownSlot(x))
    ensures SameId(x, RestartSlot(x, reset, o)) && SameId(x, ReloadSlot(x, o)) && SameId(x, PullSlot(x, o))
  {
  }

  lemma PeriodicKeepsId(x: Slot, now: nat, o: Outcome)
    ensures SameId(x, ScheduledSlot(x, now, o)) && SameId(x, CronSlot(x, now, o))
    ensures SameId(x, DueWatchSlot(x, now, o)) && SameId(x, LimitSlot(x, o))
    ensures SameId(x, WatchSlot(x, o)) && SameId(x, HealthSlot(x, now, o))
  {
    RequestsKeepId(x, false, o);
    RequestsKeepId(x.(pending := None), false, o);
  }

  lemma ExitKeepsId(x: Slot, e: ExitEvent, o: Outcome)
    ensures SameId(x, ExitSlot(x, e, o))
  {
  }

  lemma RequestEffectKeepsId(s: State, e: Event, n: string)
    requires IsRequest(e) && !e.Start?
    ensures SameId(SlotOf(s, n), Effect(s, e, n))
  {
    var x := SlotOf(s, n);
    match e
    case Stop(_, o) => RequestsKeepId(x, true, o);
    case Restart(_, o) => RequestsKeepId(x, true, o);
    case RestartAll(_, w) => RequestsKeepId(x, true, w(n));
    case Reload(_, o) => RequestsKeepId(x, true, o);
    case Pull(_, w) => RequestsKeepId(x, true, w(n));
    case _ =>
  }

  lemma PeriodicEffectKeepsId(s: State, e: Event, n: string)
    requires !IsRequest(e) && !e.DaemonRestart?
    ensures SameId(SlotOf(s, n), Effect(s, e, n))
  {
    var x := SlotOf(s, n);
    match e
    case Exit(exit, o) => ExitKeepsId(x, exit, o);
    case RunScheduled(now, w) => PeriodicKeepsId(x, now, w(n));
    case RunCron(now, w) => PeriodicKeepsId(x, now, w(n));
    case RunDueWatch(now, w) => PeriodicKeepsId(x, now, w(n));
    case CheckLimits(w) => PeriodicKeepsId(x, 0, w(n));
    case CheckWatches(w) => PeriodicKeepsId(x, 0, w(n));
    case CheckHealth(now, w) => PeriodicKeepsId(x, now, w(n));
  }

  lemma EffectKeepsId(s: State, e: Event, n: string)
    requires !e.Start? && !e.DaemonRestart?
    ensures SameId(SlotOf(s, n), Effect(s, e, n))
  {
    if IsRequest(e) {
      RequestEffectKeepsId(s, e, n);
    } else {
      PeriodicEffectKeepsId(s, e, n);
    }
  }

  /** Records keep their id; the only new record is the one a start registers. */
  lemma EffectId(s: State, e: Event, n: string)
    requires s.disk.processes == Dump(s.nextId, s.processes).processes && Effect(s, e, n).proc.Some?
    ensures n in s.processes ==> Effect(s, e, n).proc.value.id == s.processes[n].id
    ensures n !in s.processes ==> e.Start? && Names(s.processes, e.request, n)
                                  && Effect(s, e, n).proc.value.id == s.nextId
  {
    if !e.Start? && !e.DaemonRestart? {
      EffectKeepsId(s, e, n);
    }
  }

  lemma StartedNameIsUnique(s: State, r: StartRequest, m: string, n: string)
    requires Names(s.processes, r, m) && Names(s.processes, r, n)
    ensures m == n
  {
    if r.name.None? {
      AutoName.AutoNameUnique(s.processes.Keys, r.stem, m, n);
    }
  }

  /** The invariant is inductive: every step keeps it, whatever the environment answers. */
  lemma InvKept(s: State, e: Event, s': State)
    requires Inv(s) && Next(s, e, s') && CounterHasRoom(s, e)
    ensures Inv(s')
  {
    forall n ensures SlotOk(n, SlotOf(s', n)) {
      EffectOk(s, e, n);
    }
    forall n | n in s'.processes
      ensures n in s.processes ==> s'.processes[n].id == s.processes[n].id
      ensures n !in s.processes ==> e.Start? && Names(s.processes, e.request, n) && s'.processes[n].id == s.nextId
    {
      assert SlotOf(s', n) == Effect(s, e, n);
      EffectId(s, e, n);
    }
    CountersKept(s, e, s');
    forall m, n | m in s'.processes && n in s'.processes && s'.processes[m].id == s'.processes[n].id
      ensures m == n
    {
      if m !in s.processes && n !in s.processes {
        StartedNameIsUnique(s, e.request, m, n);
      }
      assert s.disk.nextId <= s.nextId;
    }
  }

  /** Ids are distinct and below the counter, so there are no more records than ids. */
  lemma RecordsFitTheCounter(s: State)
    requires Inv(s)
    ensures |s.processes| <= s.nextId
  {
    DistinctIdsFit(s.processes, s.processes.Keys, s.disk.nextId);
  }

  lemma {:induction false} DistinctIdsFit(procs: map<string, Proc>, names: set<string>, bound: nat)
    requires names <= procs.Keys && forall n :: n in names ==> procs[n].id < bound
    requires forall m, n :: m in names && n in names && procs[m].id == procs[n].id ==> m == n
    ensures |names| <= bound
  {
    if bound == 0 {
      assert names == {};
    } else if n :| n in names && procs[n].id == bound - 1 {
      DistinctIdsFit(procs, names - {n}, bound - 1);
    } else {
      DistinctIdsFit(procs, names, bound - 1);
    }
  }

  lemma CountersKept(s: State, e: Event, s': State)
    requires Inv(s) && Next(s, e, s') && CounterHasRoom(s, e)
    ensures s.disk.nextId <= s'.disk.nextId <= s'.nextId
    ensures s'.processes != s.processes ==> s'.disk.nextId == s'.nextId
    ensures s'.disk.processes == Dump(s'.nextId, s'.processes).processes
  {
    if e.DaemonRestart? {
      assert s'.nextId == s.disk.nextId by {
        if n :| n in s.disk.processes && s.disk.processes[n].id + 1 == s'.nextId {
          assert n in s.processes;
        }
      }
    }
  }
}
