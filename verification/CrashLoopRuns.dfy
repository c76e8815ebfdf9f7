/** The daemon's crash-loop limiter over whole runs. */
module CrashLoopRuns {
  import opened Prelude
  import opened Domain
  import opened CrashLimiter
  import opened Lifecycle
  import opened LifecycleInvariant
  import opened LifecycleMeaning
  import LifecycleRuns

  ghost predicate ExitOf(e: Event, n: string) {
    e.Exit? && e.exit.name == n
  }

  /** The exit makes the daemon restart the process, now or after a delay. */
  ghost predicate AutoRestarts(s: State, e: Event, n: string) {
    && ExitOf(e, n) && n in s.processes
    && var p := s.processes[n];
    && ExitMatches(p, e.exit) && p.desired == WantRunning && CanAutoRestart(p.(pid := None), e.exit)
    && !LimitReached(p.history, p.config.crashRestartLimit, e.outcome.epoch)
  }

  /** The event removes the process or clears the history of its restarts.
      `ForgetsOnlyWhen` says which events do. */
  ghost predicate Forgets(s: State, e: Event, n: string) {
    n in s.processes
    && (Effect(s, e, n).proc.None? || (Effect(s, e, n).proc.value.history == [] && s.processes[n].history != []))
  }

  /** The times of the automatic restarts of a process between two states of a run. */
  ghost function RestartTimes(states: seq<State>, events: seq<Event>, n: string, i: nat, j: nat): seq<nat>
    requires i <= j < |states| && j <= |events|
    decreases j - i
  {
    if i == j then []
    else
      RestartTimes(states, events, n, i, j - 1)
      + if AutoRestarts(states[j - 1], events[j - 1], n) then [events[j - 1].outcome.epoch] else []
  }

  /** The clock does not run backwards between exits of the process. */
  ghost predicate ExitsAscend(events: seq<Event>, n: string, i: nat, j: nat)
    requires i <= j <= |events|
  {
    forall k, l :: i <= k <= l < j && ExitOf(events[k], n) && ExitOf(events[l], n) ==>
                     events[k].outcome.epoch <= events[l].outcome.epoch
  }

  /** The time of the last exit, if there was one. */
  ghost function LastExit(events: seq<Event>, n: string, i: nat, j: nat): nat
    requires i <= j <= |events|
    decreases j - i
  {
    if i == j then 0
    else if ExitOf(events[j - 1], n) then events[j - 1].outcome.epoch
    else LastExit(events, n, i, j - 1)
  }

  lemma {:induction false} LastExitIsEarlier(events: seq<Event>, n: string, i: nat, j: nat, l: nat)
    requires i <= j <= l < |events| && ExitsAscend(events, n, i, l + 1) && ExitOf(events[l], n)
    ensures LastExit(events, n, i, j) <= events[l].outcome.epoch
    decreases j - i
  {
    if i < j && !ExitOf(events[j - 1], n) {
      LastExitIsEarlier(events, n, i, j - 1, l);
    }
  }

  // ---------------------------------------------------------------------
  // One step
  // ---------------------------------------------------------------------

  /** What a step that forgets nothing does to the history of one process. */
  ghost predicate HistoryFollows(p: Proc, q: Proc, exited: Option<nat>, restarted: bool) {
    && q.config.crashRestartLimit == p.config.crashRestartLimit
    && if restarted && exited.Some?
       then q.history == Recorded(Prune(p.history, exited.value), p.config.crashRestartLimit, exited.value)
       else q.history == p.history || (exited.Some? && q.history == Prune(p.history, exited.value))
  }

  /** The same, under one name. */
  ghost predicate SlotFollows(x: Slot, y: Slot, exited: Option<nat>, restarted: bool) {
    x.proc.Some? && y.proc.Some? && HistoryFollows(x.proc.value, y.proc.value, exited, restarted)
  }

  lemma RequestHistory(s: State, e: Event, n: string)
    requires SlotOk(n, SlotOf(s, n)) && n in s.processes && IsRequest(e) && !Forgets(s, e, n)
    ensures SlotFollows(SlotOf(s, n), Effect(s, e, n), None, false)
  {
    if e.Pull? || e.Reload? || e.Restart? || e.RestartAll? {
      RestartHistory(s, e, n);
    }
  }

  lemma RestartHistory(s: State, e: Event, n: string)
    requires SlotOk(n, SlotOf(s, n)) && n in s.processes && !Forgets(s, e, n)
    requires e.Pull? || e.Reload? || e.Restart? || e.RestartAll?
    ensures SlotFollows(SlotOf(s, n), Effect(s, e, n), None, false)
  {
  }

  lemma TriggeredHistory(x: Slot, count: nat, o: Outcome)
    requires x.proc.Some?
    ensures SlotFollows(x, TriggeredSlot(x, count, o), None, false)
  {
  }

  lemma TimerHistory(s: State, e: Event, n: string)
    requires n in s.processes && (e.RunScheduled? || e.RunCron? || e.RunDueWatch?)
    ensures SlotFollows(SlotOf(s, n), Effect(s, e, n), None, false)
  {
    var x := SlotOf(s, n);
    match e
    case RunScheduled(now, w) =>
    case RunCron(now, w) => TriggeredHistory(x, x.proc.value.restartCount, w(n));
    case RunDueWatch(now, w) => TriggeredHistory(x.(pending := None), x.proc.value.restartCount, w(n));
  }

  lemma CheckHistory(s: State, e: Event, n: string)
    requires n in s.processes && (e.CheckLimits? || e.CheckWatches? || e.CheckHealth?)
    ensures SlotFollows(SlotOf(s, n), Effect(s, e, n), None, false)
  {
    var x := SlotOf(s, n);
    match e
    case CheckLimits(w) => TriggeredHistory(x, x.proc.value.restartCount, w(n));
    case CheckWatches(w) => TriggeredHistory(x, x.proc.value.restartCount, w(n));
    case CheckHealth(now, w) => HealthHistory(x, now, w(n));
  }

  lemma HealthHistory(x: Slot, now: nat, o: Outcome)
    requires x.proc.Some?
    ensures SlotFollows(x, HealthSlot(x, now, o), None, false)
  {
    if HealthDue(x, now) {
      TriggeredHistory(x.(proc := Some(Checked(x.proc.value, now, o))), x.proc.value.restartCount, o);
    }
  }

  lemma PeriodicHistory(s: State, e: Event, n: string)
    requires n in s.processes && !IsRequest(e) && !e.Exit? && !e.DaemonRestart?
    ensures SlotFollows(SlotOf(s, n), Effect(s, e, n), None, false)
  {
    if e.CheckLimits? || e.CheckWatches? || e.CheckHealth? {
      CheckHistory(s, e, n);
    } else {
      TimerHistory(s, e, n);
    }
  }

  lemma ExitHistory(s: State, e: Event, n: string)
    requires n in s.processes && e.Exit? && !Forgets(s, e, n) && s.processes[n].config.crashRestartLimit > 0
    ensures var exited := if ExitOf(e, n) then Some(e.outcome.epoch) else None;
            SlotFollows(SlotOf(s, n), Effect(s, e, n), exited, AutoRestarts(s, e, n))
  {
  }

  lemma RecoveryHistory(s: State, e: Event, n: string)
    requires n in s.processes && e.DaemonRestart? && s.disk.processes == Dump(s.nextId, s.processes).processes
    ensures SlotFollows(SlotOf(s, n), Effect(s, e, n), None, false)
  {
    assert s.disk.processes[n] == Persisted(s.processes[n]);
  }

  lemma HistoryStep(s: State, e: Event, s': State, n: string)
    requires Inv(s) && Next(s, e, s') && n in s.processes && !Forgets(s, e, n)
    requires s.processes[n].config.crashRestartLimit > 0
    ensures n in s'.processes
    ensures var exited := if ExitOf(e, n) then Some(e.outcome.epoch) else None;
            HistoryFollows(s.processes[n], s'.processes[n], exited, AutoRestarts(s, e, n))
  {
    assert SlotOk(n, SlotOf(s, n));
    assert SlotOf(s', n) == Effect(s, e, n);
    if IsRequest(e) {
      RequestHistory(s, e, n);
    } else if e.Exit? {
      ExitHistory(s, e, n);
    } else if e.DaemonRestart? {
      RecoveryHistory(s, e, n);
    } else {
      PeriodicHistory(s, e, n);
    }
  }

  /** The process comes to rest: its current child ended, and the stop was wanted or the
      restart policy or budget allows no restart. */
  ghost predicate Rests(s: State, e: Event, n: string) {
    && ExitOf(e, n) && n in s.processes
    && var p := s.processes[n];
    && ExitMatches(p, e.exit) && !(p.desired == WantRunning && CanAutoRestart(p.(pid := None), e.exit))
  }

  /** Which events can clear the history of a process: a request, or its coming to rest.
      In particular no daemon restart, check, timer or crash loop does. */
  lemma ForgetsOnlyWhen(s: State, e: Event, n: string)
    requires Inv(s) && n in s.processes && s.processes[n].config.crashRestartLimit > 0 && Forgets(s, e, n)
    ensures IsRequest(e) || Rests(s, e, n)
    ensures Rests(s, e, n) ==> !AutoRestarts(s, e, n)
  {
    if e.Exit? {
      if !Rests(s, e, n) {
        RestlessRemembers(s, e, n);
      }
    } else if e.DaemonRestart? {
      RecoveryHistory(s, e, n);
    } else if !IsRequest(e) {
      PeriodicHistory(s, e, n);
    }
  }

  /** Neither an automatic restart nor giving up in a crash loop clears the history. */
  lemma RestlessRemembers(s: State, e: Event, n: string)
    requires n in s.processes && e.Exit? && s.processes[n].config.crashRestartLimit > 0 && !Rests(s, e, n)
    ensures !Forgets(s, e, n)
  {
  }

  // ---------------------------------------------------------------------
  // Whole runs
  // ---------------------------------------------------------------------

  /** A stretch of a run in which nothing clears the history of the process, and which
      begins with an empty one. */
  ghost predicate IsStretch(states: seq<State>, events: seq<Event>, n: string, i: nat, j: nat) {
    && LifecycleRuns.IsRun(states, events) && i <= j < |states| && Inv(states[i])
    && n in states[i].processes && states[i].processes[n].history == []
    && (forall k :: i <= k < j ==> !Forgets(states[k], events[k], n))
    && ExitsAscend(events, n, i, j)
  }

  lemma StepRemembers(p: Proc, q: Proc, log: seq<nat>, limit: nat, earlier: nat, exited: Option<nat>, restarted: bool)
    requires limit == p.config.crashRestartLimit > 0
    requires Remembers(p.history, log, earlier) && Spaced(log, limit)
    requires HistoryFollows(p, q, exited, restarted)
    requires exited.Some? ==> earlier <= exited.value
    requires restarted ==> exited.Some? && !LimitReached(p.history, limit, exited.value)
    ensures var grown := if restarted then log + [exited.value] else log;
            Remembers(q.history, grown, if exited.Some? then exited.value else earlier) && Spaced(grown, limit)
  {
    if restarted {
      RecordKeepsSpacing(p.history, log, limit, earlier, exited.value, exited.value);
    } else if exited.Some? {
      PruneRemembers(p.history, log, earlier, exited.value);
    }
  }

  /** What the limiter remembers of the restarts made since the stretch began. */
  ghost predicate RemembersStretch(states: seq<State>, events: seq<Event>, n: string, i: nat, j: nat, limit: nat)
    requires i <= j < |states| && j <= |events|
  {
    && Inv(states[j]) && n in states[j].processes && states[j].processes[n].config.crashRestartLimit == limit
    && Spaced(RestartTimes(states, events, n, i, j), limit)
    && Remembers(states[j].processes[n].history, RestartTimes(states, events, n, i, j), LastExit(events, n, i, j))
  }

  lemma StretchNext(states: seq<State>, events: seq<Event>, n: string, i: nat, j: nat, limit: nat)
    requires i <= j < |events| && |states| == |events| + 1 && limit > 0
    requires RemembersStretch(states, events, n, i, j, limit)
    requires Next(states[j], events[j], states[j + 1]) && CounterHasRoom(states[j], events[j])
    requires !Forgets(states[j], events[j], n)
    requires ExitOf(events[j], n) ==> LastExit(events, n, i, j) <= events[j].outcome.epoch
    ensures RemembersStretch(states, events, n, i, j + 1, limit)
  {
    var s, e, s' := states[j], events[j], states[j + 1];
    InvKept(s, e, s');
    HistoryStep(s, e, s', n);
    StepRemembers(s.processes[n], s'.processes[n], RestartTimes(states, events, n, i, j), limit,
                  LastExit(events, n, i, j), if ExitOf(e, n) then Some(e.outcome.epoch) else None,
                  AutoRestarts(s, e, n));
    TimesNext(states, events, n, i, j);
  }

  lemma TimesNext(states: seq<State>, events: seq<Event>, n: string, i: nat, j: nat)
    requires i <= j < |events| && |states| == |events| + 1
    ensures RestartTimes(states, events, n, i, j + 1)
            == if AutoRestarts(states[j], events[j], n)
               then RestartTimes(states, events, n, i, j) + [events[j].outcome.epoch]
               else RestartTimes(states, events, n, i, j)
    ensures LastExit(events, n, i, j + 1)
            == if ExitOf(events[j], n) then events[j].outcome.epoch else LastExit(events, n, i, j)
  {
  }

  lemma StretchRemembers(states: seq<State>, events: seq<Event>, n: string, i: nat, j: nat, limit: nat)
    requires IsStretch(states, events, n, i, j) && limit == states[i].processes[n].config.crashRestartLimit > 0
    ensures RemembersStretch(states, events, n, i, j, limit)
  {
    StretchUpTo(states, events, n, i, j, j, limit);
  }

  lemma {:induction false} StretchUpTo(states: seq<State>, events: seq<Event>, n: string, i: nat, j: nat, k: nat,
                                       limit: nat)
    requires IsStretch(states, events, n, i, j) && i <= k <= j
    requires limit == states[i].processes[n].config.crashRestartLimit > 0
    ensures RemembersUpTo(states, events, n, i, k, limit)
    decreases k - i
  {
    if i < k {
      StretchUpTo(states, events, n, i, j, k - 1, limit);
      StretchGoesOn(states, events, n, i, j, k - 1, limit);
    } else {
      StretchStart(states, events, n, i);
    }
  }

  ghost predicate RemembersUpTo(states: seq<State>, events: seq<Event>, n: string, i: nat, k: nat, limit: nat) {
    i <= k < |states| && k <= |events| && RemembersStretch(states, events, n, i, k, limit)
  }

  lemma StretchGoesOn(states: seq<State>, events: seq<Event>, n: string, i: nat, j: nat, k: nat, limit: nat)
    requires IsStretch(states, events, n, i, j) && i <= k < j && limit > 0
    requires RemembersUpTo(states, events, n, i, k, limit)
    ensures RemembersUpTo(states, events, n, i, k + 1, limit)
  {
    StretchAt(states, events, n, i, j, k);
    StretchNext(states, events, n, i, k, limit);
  }

  lemma StretchAt(states: seq<State>, events: seq<Event>, n: string, i: nat, j: nat, k: nat)
    requires IsStretch(states, events, n, i, j) && i <= k < j
    ensures Next(states[k], events[k], states[k + 1]) && CounterHasRoom(states[k], events[k])
    ensures !Forgets(states[k], events[k], n)
    ensures ExitOf(events[k], n) ==> LastExit(events, n, i, k) <= events[k].outcome.epoch
  {
    LifecycleRuns.StepAt(states, events, k);
    if ExitOf(events[k], n) {
      LastExitIsEarlier(events, n, i, k, k);
    }
  }

  lemma StretchStart(states: seq<State>, events: seq<Event>, n: string, i: nat)
    requires i < |states| && i <= |events| && Inv(states[i])
    requires n in states[i].processes && states[i].processes[n].history == []
    ensures RemembersStretch(states, events, n, i, i, states[i].processes[n].config.crashRestartLimit)
  {
    NothingToRemember(states[i].processes[n].config.crashRestartLimit);
    assert RestartTimes(states, events, n, i, i) == [] && LastExit(events, n, i, i) == 0;
  }

  lemma NothingToRemember(limit: nat)
    ensures Remembers([], [], 0) && Spaced([], limit)
  {
  }

  /** The daemon's crash-loop guarantee: as long as nothing clears a process's history,
      no interval of five minutes holds more automatic restarts of it than its limit,
      daemon restarts included. */
  lemma DaemonCrashLoopBound(states: seq<State>, events: seq<Event>, n: string, i: nat, j: nat, from: nat)
    requires IsStretch(states, events, n, i, j) && states[i].processes[n].config.crashRestartLimit > 0
    ensures var log := RestartTimes(states, events, n, i, j);
            |set x | 0 <= x < |log| && from <= log[x] < from + WINDOW_SECS|
            <= states[i].processes[n].config.crashRestartLimit
  {
    StretchRemembers(states, events, n, i, j, states[i].processes[n].config.crashRestartLimit);
    WindowBound(RestartTimes(states, events, n, i, j), states[i].processes[n].config.crashRestartLimit, from);
  }

  /** And the limit is used up: whenever its child ends and policy and budget allow it, the
      process restarts exactly when fewer restarts than the limit were made in the last five
      minutes, and is given up otherwise. */
  lemma RestartsIffBelowLimit(states: seq<State>, events: seq<Event>, n: string, i: nat, j: nat, p: Proc)
    requires IsStretch(states, events, n, i, j) && j < |events| && Lookup(states[j].processes, n) == Some(p)
    requires states[i].processes[n].config.crashRestartLimit > 0
    requires ExitOf(events[j], n) && LastExit(events, n, i, j) <= events[j].outcome.epoch
    requires p.pid == Some(events[j].exit.pid) && p.desired == WantRunning && MayRestart(p, events[j].exit)
    ensures var recent := |RecentRestarts(RestartTimes(states, events, n, i, j), events[j].outcome.epoch)|;
            var after := SlotOf(states[j + 1], n);
            if recent < p.config.crashRestartLimit then
              AutoRestarts(states[j], events[j], n) && RestartsAfterExit(p, events[j].outcome, after)
            else !AutoRestarts(states[j], events[j], n) && Down(p, after, Errored, WantStopped)
  {
    var limit := states[i].processes[n].config.crashRestartLimit;
    StretchRemembers(states, events, n, i, j, limit);
    StretchMember(states, events, n, i, j, limit);
    LogDecides(p.history, RestartTimes(states, events, n, i, j), LastExit(events, n, i, j), limit,
               events[j].outcome.epoch);
    ExitDecides(states[j], events[j].exit, events[j].outcome, states[j + 1], n);
  }

  lemma StretchMember(states: seq<State>, events: seq<Event>, n: string, i: nat, j: nat, limit: nat)
    requires IsStretch(states, events, n, i, j) && j < |events| && RemembersStretch(states, events, n, i, j, limit)
    ensures n in states[j].processes && states[j].processes[n].config.crashRestartLimit == limit
    ensures Next(states[j], events[j], states[j + 1])
  {
    LifecycleRuns.StepAt(states, events, j);
  }

  lemma ExitDecides(s: State, e: ExitEvent, o: Outcome, s': State, n: string)
    requires Next(s, Exit(e, o), s') && n in s.processes && e.name == n
    requires var p := s.processes[n]; p.pid == Some(e.pid) && p.desired == WantRunning && MayRestart(p, e)
    ensures var p := s.processes[n];
            if LimitReached(p.history, p.config.crashRestartLimit, o.epoch) then
              !AutoRestarts(s, Exit(e, o), n) && Down(p, SlotOf(s', n), Errored, WantStopped)
            else AutoRestarts(s, Exit(e, o), n) && RestartsAfterExit(p, o, SlotOf(s', n))
  {
    var p := s.processes[n];
    LimitReachedIff(p.history, p.config.crashRestartLimit, o.epoch);
    ExitMeans(s, e, o, s');
    assert CanAutoRestart(p.(pid := None), e);
  }

  /** A stretch of a run in which nobody makes a request and the process does not come to
      rest. */
  ghost predicate IsUnattended(states: seq<State>, events: seq<Event>, n: string, i: nat, j: nat) {
    && LifecycleRuns.IsRun(states, events) && i <= j < |states| && Inv(states[i])
    && n in states[i].processes && states[i].processes[n].history == []
    && (forall k :: i <= k < j ==> LeftAlone(states, events, n, k))
    && ExitsAscend(events, n, i, j)
  }

  /** Step `k` is no request, and does not bring the process to rest. */
  ghost predicate LeftAlone(states: seq<State>, events: seq<Event>, n: string, k: nat)
    requires k < |states| && k < |events|
  {
    !IsRequest(events[k]) && !Rests(states[k], events[k], n)
  }

  /** Left to itself the daemon keeps the bound through every crash and restart. */
  lemma UnattendedCrashLoopBound(states: seq<State>, events: seq<Event>, n: string, i: nat, j: nat, from: nat)
    requires IsUnattended(states, events, n, i, j) && states[i].processes[n].config.crashRestartLimit > 0
    ensures var log := RestartTimes(states, events, n, i, j);
            |set x | 0 <= x < |log| && from <= log[x] < from + WINDOW_SECS|
            <= states[i].processes[n].config.crashRestartLimit
  {
    UnattendedIsStretch(states, events, n, i, j);
    DaemonCrashLoopBound(states, events, n, i, j, from);
  }

  ghost predicate Guarded(s: State, n: string) {
    Inv(s) && n in s.processes && s.processes[n].config.crashRestartLimit > 0
  }

  ghost predicate GuardedAt(states: seq<State>, n: string, k: nat) {
    k < |states| && Guarded(states[k], n)
  }

  lemma UnattendedIsStretch(states: seq<State>, events: seq<Event>, n: string, i: nat, j: nat)
    requires IsUnattended(states, events, n, i, j) && states[i].processes[n].config.crashRestartLimit > 0
    ensures IsStretch(states, events, n, i, j)
  {
    forall k | i <= k < j ensures !Forgets(states[k], events[k], n) {
      StaysGuarded(states, events, n, i, j, k);
      UnattendedAt(states, events, n, i, j, k);
    }
  }

  lemma StaysGuarded(states: seq<State>, events: seq<Event>, n: string, i: nat, j: nat, k: nat)
    requires IsUnattended(states, events, n, i, j) && i <= k <= j && GuardedAt(states, n, i)
    ensures GuardedAt(states, n, k)
  {
    for l := i to k
      invariant GuardedAt(states, n, l)
    {
      GuardedNext(states, events, n, i, j, l);
    }
  }

  lemma GuardedNext(states: seq<State>, events: seq<Event>, n: string, i: nat, j: nat, k: nat)
    requires IsUnattended(states, events, n, i, j) && i <= k < j && GuardedAt(states, n, k)
    ensures GuardedAt(states, n, k + 1)
  {
    assert LeftAlone(states, events, n, k);
    LifecycleRuns.StepAt(states, events, k);
    UnattendedStep(states[k], events[k], states[k + 1], n);
  }

  lemma UnattendedAt(states: seq<State>, events: seq<Event>, n: string, i: nat, j: nat, k: nat)
    requires IsUnattended(states, events, n, i, j) && i <= k < j && GuardedAt(states, n, k)
    ensures !Forgets(states[k], events[k], n)
  {
    assert LeftAlone(states, events, n, k);
    LifecycleRuns.StepAt(states, events, k);
    UnattendedStep(states[k], events[k], states[k + 1], n);
  }

  lemma UnattendedStep(s: State, e: Event, s': State, n: string)
    requires Guarded(s, n) && Next(s, e, s') && !IsRequest(e) && !Rests(s, e, n)
    ensures !Forgets(s, e, n) && Guarded(s', n)
  {
    if Forgets(s, e, n) {
      ForgetsOnlyWhen(s, e, n);
    }
    InvKept(s, e, s');
    HistoryStep(s, e, s', n);
  }
}
