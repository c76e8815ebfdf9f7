/** Safety of the lifecycle over whole runs of the daemon, restarts of the daemon
    itself included. */
module LifecycleRuns {
  import opened Prelude
  import opened Domain
  import opened Lifecycle
  import opened LifecycleInvariant

  /** `events[k]` takes `states[k]` to `states[k + 1]`; the id counter never runs out. */
  ghost predicate IsRun(states: seq<State>, events: seq<Event>) {
    && |states| == |events| + 1
    && forall k :: 0 <= k < |events| ==> Steps(states, events, k)
  }

  ghost predicate Steps(states: seq<State>, events: seq<Event>, k: nat)
    requires k < |events| && k + 1 < |states|
  {
    Next(states[k], events[k], states[k + 1]) && CounterHasRoom(states[k], events[k])
  }

  lemma StepAt(states: seq<State>, events: seq<Event>, k: nat)
    requires IsRun(states, events) && k < |events|
    ensures Next(states[k], events[k], states[k + 1]) && CounterHasRoom(states[k], events[k])
  {
    assert Steps(states, events, k);
  }

  /** Every state of every run from an empty daemon satisfies the invariant. */
  lemma {:induction false} RunsAreSafe(states: seq<State>, events: seq<Event>, k: nat)
    requires IsRun(states, events) && states[0] == INITIAL && k < |states|
    ensures Inv(states[k])
  {
    if k == 0 {
      InitialInv();
    } else {
      RunsAreSafe(states, events, k - 1);
      StepAt(states, events, k - 1);
      InvKept(states[k - 1], events[k - 1], states[k]);
    }
  }

  lemma {:induction false} InvFrom(states: seq<State>, events: seq<Event>, i: nat, j: nat)
    requires IsRun(states, events) && i <= j < |states| && Inv(states[i])
    ensures Inv(states[j])
    decreases j - i
  {
    if i < j {
      StepAt(states, events, i);
      InvKept(states[i], events[i], states[i + 1]);
      InvFrom(states, events, i + 1, j);
    }
  }

  // ---------------------------------------------------------------------
  // Ids
  // ---------------------------------------------------------------------

  lemma StepKeepsIds(s: State, e: Event, s': State, n: string)
    requires Inv(s) && Next(s, e, s') && CounterHasRoom(s, e)
    requires n in s'.processes && s'.processes[n].id < s.disk.nextId
    ensures n in s.processes && s.processes[n].id == s'.processes[n].id
  {
    assert SlotOf(s', n) == Effect(s, e, n);
    EffectId(s, e, n);
  }

  /** A record whose id the saved counter had already passed was there before. */
  lemma {:induction false} OldIdsAreOldRecords(states: seq<State>, events: seq<Event>, i: nat, j: nat, n: string)
    requires IsRun(states, events) && i <= j < |states| && Inv(states[i])
    requires n in states[j].processes && states[j].processes[n].id < states[i].disk.nextId
    ensures n in states[i].processes && states[i].processes[n].id == states[j].processes[n].id
    decreases j - i
  {
    if i < j {
      StepAt(states, events, i);
      InvKept(states[i], events[i], states[i + 1]);
      CountersKept(states[i], events[i], states[i + 1]);
      OldIdsAreOldRecords(states, events, i + 1, j, n);
      StepKeepsIds(states[i], events[i], states[i + 1], n);
    }
  }

  /** Across starts, failed starts, deletions and daemon restarts: an id that was
      ever registered belongs to the same name wherever it shows up later, and once
      its process is gone it never shows up again. */
  lemma IdsAreNeverReused(states: seq<State>, events: seq<Event>, i: nat, j: nat, k: nat, m: string, n: string)
    requires IsRun(states, events) && i <= j <= k < |states| && Inv(states[i])
    requires m in states[i].processes && n in states[k].processes
    requires states[i].processes[m].id == states[k].processes[n].id
    ensures m == n
    ensures n in states[j].processes && states[j].processes[n].id == states[i].processes[m].id
  {
    InvFrom(states, events, i, j);
    SavedCounterGrows(states, events, i, j);
    OldIdsAreOldRecords(states, events, i, k, n);
    OldIdsAreOldRecords(states, events, j, k, n);
  }

  lemma {:induction false} SavedCounterGrows(states: seq<State>, events: seq<Event>, i: nat, j: nat)
    requires IsRun(states, events) && i <= j < |states| && Inv(states[i])
    ensures states[i].disk.nextId <= states[j].disk.nextId
    decreases j - i
  {
    if i < j {
      StepAt(states, events, i);
      InvKept(states[i], events[i], states[i + 1]);
      CountersKept(states[i], events[i], states[i + 1]);
      SavedCounterGrows(states, events, i + 1, j);
    }
  }

  ghost predicate Registers(s: State, e: Event, s': State, n: string) {
    e.Start? && Next(s, e, s') && n !in s.processes && n in s'.processes
  }

  /** A registration leaves room for the next exactly when the counter has not
      reached its end. */
  lemma RegistrationIsSafeIff(s: State, e: Event, s': State, n: string)
    requires Inv(s) && Registers(s, e, s', n)
    ensures s'.processes[n].id < s'.nextId <==> CounterHasRoom(s, e)
  {
    assert SlotOf(s', n) == Effect(s, e, n);
    EffectId(s, e, n);
  }

  /** At the end of the counter two registrations in a row get the same id. */
  lemma SaturatedCounterCollides(s: State, e: Event, s': State, m: string, e': Event, s'': State, n: string)
    requires Inv(s) && s.nextId == U64_MAX
    requires Registers(s, e, s', m) && Registers(s', e', s'', n)
    ensures m in s''.processes && m != n && s''.processes[m].id == s''.processes[n].id == U64_MAX
  {
    assert SlotOf(s', m) == Effect(s, e, m);
    EffectId(s, e, m);
    assert SlotOf(s'', n) == Effect(s', e', n) && SlotOf(s'', m) == Effect(s', e', m);
  }

  // ---------------------------------------------------------------------
  // Stop sticks
  // ---------------------------------------------------------------------

  /** Known, not wanted running, and without a pid. */
  ghost predicate Held(s: State, n: string) {
    n in s.processes && s.processes[n].desired == WantStopped && s.processes[n].pid.None?
  }

  /** The requests that may bring a process up: an explicit start, restart or reload. */
  ghost predicate Revives(s: State, e: Event, n: string) {
    match e
    case Start(r, _) => Names(s.processes, r, n)
    case Restart(target, _) => Resolves(s.processes, target, n)
    case Reload(target, _) => Resolves(s.processes, target, n)
    case RestartAll(_, _) => true
    case _ => false
  }

  lemma HeldThroughRequests(s: State, e: Event, n: string)
    requires SlotOk(n, SlotOf(s, n)) && Held(s, n) && !Revives(s, e, n) && IsRequest(e)
    ensures Effect(s, e, n).proc.Some? ==> Effect(s, e, n).proc.value.desired == WantStopped
                                           && Effect(s, e, n).proc.value.pid.None?
  {
  }

  lemma HeldThroughBackground(s: State, e: Event, n: string)
    requires SlotOk(n, SlotOf(s, n)) && Held(s, n) && !IsRequest(e)
    requires n in s.disk.processes ==> s.disk.processes[n] == Persisted(s.processes[n])
    ensures Effect(s, e, n).proc.Some? ==> Effect(s, e, n).proc.value.desired == WantStopped
                                           && Effect(s, e, n).proc.value.pid.None?
  {
  }

  lemma HeldStep(s: State, e: Event, s': State, n: string)
    requires Inv(s) && Next(s, e, s') && Held(s, n) && !Revives(s, e, n)
    ensures n in s'.processes ==> Held(s', n)
  {
    assert SlotOk(n, SlotOf(s, n));
    assert SlotOf(s', n) == Effect(s, e, n);
    if IsRequest(e) {
      HeldThroughRequests(s, e, n);
    } else {
      HeldThroughBackground(s, e, n);
    }
  }

  lemma HeldOrGoneStep(s: State, e: Event, s': State, n: string)
    requires Inv(s) && Next(s, e, s') && (n in s.processes ==> Held(s, n)) && !Revives(s, e, n)
    ensures n in s'.processes ==> Held(s', n)
  {
    if n in s.processes {
      HeldStep(s, e, s', n);
    } else if n in s'.processes {
      assert SlotOf(s', n) == Effect(s, e, n);
      EffectId(s, e, n);
    }
  }

  /** Once stopped, for whatever reason, a process gets no pid from exit events,
      scheduled restarts, periodic checks, pulls or daemon restarts, for as long as
      nobody explicitly starts, restarts or reloads it. */
  lemma {:induction false} StopSticks(states: seq<State>, events: seq<Event>, i: nat, j: nat, n: string)
    requires IsRun(states, events) && i <= j < |states| && Inv(states[i])
    requires n in states[i].processes ==> states[i].processes[n].desired == WantStopped
    requires forall k :: i <= k < j ==> !Revives(states[k], events[k], n)
    ensures n in states[j].processes ==> Held(states[j], n)
    decreases j - i
  {
    assert SlotOk(n, SlotOf(states[i], n));
    if i < j {
      StepAt(states, events, i);
      InvKept(states[i], events[i], states[i + 1]);
      HeldOrGoneStep(states[i], events[i], states[i + 1], n);
      StopSticks(states, events, i + 1, j, n);
    }
  }

  // ---------------------------------------------------------------------
  // Delayed restarts
  // ---------------------------------------------------------------------

  /** Running the scheduled restarts leaves nothing due: each due process was
      waiting to restart, and is now running its new child or given up. */
  lemma ScheduledRestartsAreRun(s: State, now: nat, w: string -> Outcome, s': State, n: string)
    requires Inv(s) && Next(s, RunScheduled(now, w), s')
    ensures n in s'.scheduled ==> n in s.scheduled && s'.scheduled[n] == s.scheduled[n] > now
    ensures n in s.scheduled && s.scheduled[n] > now ==> SlotOf(s', n) == SlotOf(s, n)
    ensures n in s.scheduled && s.scheduled[n] <= now ==>
              && n in s.processes && s.processes[n].status == Restarting
              && n in s'.processes
              && (if w(n).spawned.Some?
                  then s'.processes[n].status == Running && s'.processes[n].pid == w(n).spawned
                  else s'.processes[n].status == Errored && s'.processes[n].desired == WantStopped)
  {
    assert SlotOk(n, SlotOf(s, n));
    assert SlotOf(s', n) == Effect(s, RunScheduled(now, w), n);
  }

  /** Events of the daemon itself, other than running the scheduled restarts or
      starting up. */
  ghost predicate IsBackground(e: Event) {
    e.Exit? || e.RunCron? || e.RunDueWatch? || e.CheckLimits? || e.CheckWatches? || e.CheckHealth?
  }

  /** Neither the record nor the scheduled restart changed. */
  ghost predicate StillWaiting(x: Slot, y: Slot) {
    y.scheduled == x.scheduled && y.proc == x.proc
  }

  lemma WaitingThroughExit(s: State, e: Event, n: string)
    requires SlotOk(n, SlotOf(s, n)) && n in s.scheduled && e.Exit?
    ensures StillWaiting(SlotOf(s, n), Effect(s, e, n))
  {
  }

  lemma WaitingThroughTimers(s: State, e: Event, n: string)
    requires SlotOk(n, SlotOf(s, n)) && n in s.scheduled
    requires e.RunCron? || e.RunDueWatch? || (e.RunScheduled? && e.now < s.scheduled[n])
    ensures StillWaiting(SlotOf(s, n), Effect(s, e, n))
  {
  }

  lemma WaitingThroughChecks(s: State, e: Event, n: string)
    requires SlotOk(n, SlotOf(s, n)) && n in s.scheduled
    requires e.CheckLimits? || e.CheckWatches? || e.CheckHealth?
    ensures StillWaiting(SlotOf(s, n), Effect(s, e, n))
  {
  }

  lemma WaitingThroughBackground(s: State, e: Event, n: string)
    requires SlotOk(n, SlotOf(s, n)) && n in s.scheduled
    requires IsBackground(e) || (e.RunScheduled? && e.now < s.scheduled[n])
    ensures StillWaiting(SlotOf(s, n), Effect(s, e, n))
  {
    if e.Exit? {
      WaitingThroughExit(s, e, n);
    } else if e.CheckLimits? || e.CheckWatches? || e.CheckHealth? {
      WaitingThroughChecks(s, e, n);
    } else {
      WaitingThroughTimers(s, e, n);
    }
  }

  /** A scheduled restart is not lost or moved by anything the daemon does on its own,
      late exit events of earlier children included. */
  lemma ScheduledRestartIsKept(s: State, e: Event, s': State, n: string)
    requires Inv(s) && Next(s, e, s') && n in s.scheduled
    requires IsBackground(e) || (e.RunScheduled? && e.now < s.scheduled[n])
    ensures n in s'.scheduled && s'.scheduled[n] == s.scheduled[n]
    ensures n in s.processes && n in s'.processes && s'.processes[n] == s.processes[n]
  {
    assert SlotOk(n, SlotOf(s, n));
    WaitingThroughBackground(s, e, n);
    assert SlotOf(s', n) == Effect(s, e, n);
    assert SlotOf(s', n).scheduled == SlotOf(s, n).scheduled && SlotOf(s', n).proc == SlotOf(s, n).proc;
  }

  /** The daemon is on its own, and the time `due` has not come when it looks. */
  ghost predicate QuietUntil(events: seq<Event>, i: nat, j: nat, due: nat) {
    forall k :: i <= k < j && k < |events| ==> IsBackground(events[k]) || (events[k].RunScheduled? && events[k].now < due)
  }

  /** Over any run: a scheduled restart stays as it is until it is due. */
  lemma {:induction false} ScheduledRestartStays(states: seq<State>, events: seq<Event>, i: nat, j: nat, n: string)
    requires IsRun(states, events) && i <= j < |states| && Inv(states[i])
    requires n in states[i].scheduled && QuietUntil(events, i, j, states[i].scheduled[n])
    ensures Inv(states[j]) && n in states[j].scheduled && states[j].scheduled[n] == states[i].scheduled[n]
    ensures n in states[i].processes && n in states[j].processes && states[j].processes[n] == states[i].processes[n]
    decreases j - i
  {
    if i < j {
      StepAt(states, events, i);
      ScheduledRestartIsKept(states[i], events[i], states[i + 1], n);
      StepAt(states, events, i);
      InvKept(states[i], events[i], states[i + 1]);
      ScheduledRestartStays(states, events, i + 1, j, n);
    } else {
      assert SlotOk(n, SlotOf(states[i], n));
    }
  }

  /** And the first look at the schedule after that runs it. */
  lemma ScheduledRestartHappens(states: seq<State>, events: seq<Event>, i: nat, j: nat, n: string)
    requires IsRun(states, events) && i <= j < |events| && Inv(states[i])
    requires n in states[i].scheduled && QuietUntil(events, i, j, states[i].scheduled[n])
    requires events[j].RunScheduled? && events[j].now >= states[i].scheduled[n]
    ensures n !in states[j + 1].scheduled && n in states[j + 1].processes
    ensures var p, child := states[j + 1].processes[n], events[j].answers(n).spawned;
            if child.Some? then p.status == Running && p.pid == child
            else p.status == Errored && p.desired == WantStopped && p.pid.None?
  {
    ScheduledRestartStays(states, events, i, j, n);
    StepAt(states, events, j);
    ScheduledRestartsAreRun(states[j], events[j].now, events[j].answers, states[j + 1], n);
    InvKept(states[j], events[j], states[j + 1]);
    assert SlotOk(n, SlotOf(states[j + 1], n));
  }

  // ---------------------------------------------------------------------
  // Debounced watch restarts
  // ---------------------------------------------------------------------

  /** A scan of a running watched process found the tree different from its baseline
      and put off the restart by the configured delay. */
  ghost predicate Arms(s: State, e: Event, n: string, p: Pending) {
    && e.CheckWatches? && WatchCandidate(SlotOf(s, n))
    && var found, delay := e.answers(n), s.processes[n].config.watchDelaySecs;
    && found.scan.Some? && n in s.watched && found.scan != Some(s.watched[n]) && delay > 0
    && p == Pending(found.instant + delay, found.scan.value)
  }

  ghost predicate PendingKept(x: Slot, y: Slot) {
    y.pending in {None, x.pending}
  }

  lemma PendingFromParking(x: Slot, o: Outcome)
    ensures PendingKept(x, StopSlot(x, o)) && PendingKept(x, StopAllSlot(x)) && PendingKept(x, ShutdownSlot(x))
  {
  }

  lemma PendingFromRestarting(x: Slot, o: Outcome)
    ensures PendingKept(x, RestartSlot(x, true, o)) && PendingKept(x, ReloadSlot(x, o)) && PendingKept(x, PullSlot(x, o))
  {
  }

  lemma PendingFromRequest(s: State, e: Event, n: string)
    requires SlotOk(n, SlotOf(s, n)) && IsRequest(e)
    ensures PendingKept(SlotOf(s, n), Effect(s, e, n))
  {
    var x := SlotOf(s, n);
    match e
    case Stop(_, o) => PendingFromParking(x, o);
    case Restart(_, o) => PendingFromRestarting(x, o);
    case RestartAll(_, w) => PendingFromRestarting(x, w(n));
    case Reload(_, o) => PendingFromRestarting(x, o);
    case Pull(_, w) => PendingFromRestarting(x, w(n));
    case _ =>
  }

  lemma PendingFromTrigger(x: Slot, count: nat, o: Outcome)
    requires x.proc.Some?
    ensures TriggeredSlot(x, count, o).pending in {None, x.pending}
  {
  }

  lemma PendingFromBackground(s: State, e: Event, n: string)
    requires !IsRequest(e) && Effect(s, e, n).pending.Some?
    ensures Effect(s, e, n).pending == SlotOf(s, n).pending || Arms(s, e, n, Effect(s, e, n).pending.value)
  {
    var x := SlotOf(s, n);
    match e
    case CheckLimits(w) =>
      if LimitViolated(x, w(n)) {
        PendingFromTrigger(x, x.proc.value.restartCount, w(n));
      }
    case CheckHealth(now, w) =>
      if HealthDue(x, now) {
        PendingFromTrigger(x.(proc := Some(Checked(x.proc.value, now, w(n)))), x.proc.value.restartCount, w(n));
      }
    case RunCron(now, w) =>
      if CronDue(x, now) {
        PendingFromTrigger(x, x.proc.value.restartCount, w(n));
      }
    case _ =>
  }

  /** `states[i]` is where the restart pending in `states[k]` was armed. */
  ghost predicate ArmedAt(states: seq<State>, events: seq<Event>, i: nat, k: nat, n: string)
    requires i < k < |states| == |events| + 1 && n in states[k].pending
  {
    && Arms(states[i], events[i], n, states[k].pending[n])
    && forall j :: i < j <= k ==> n in states[j].pending && states[j].pending[n] == states[k].pending[n]
  }

  /** In every run from an empty daemon, a pending watch restart goes back to a scan
      that saw a change, and has been waiting unchanged since: it falls due only the
      full delay after that scan. */
  lemma {:induction false} WatchRestartsAreDebounced(states: seq<State>, events: seq<Event>, k: nat, n: string)
    requires IsRun(states, events) && states[0] == INITIAL && k < |states| && n in states[k].pending
    ensures exists i: nat :: i < k && ArmedAt(states, events, i, k, n)
  {
    RunsAreSafe(states, events, k - 1);
    StepAt(states, events, k - 1);
    PendingStep(states[k - 1], events[k - 1], states[k], n);
    if Arms(states[k - 1], events[k - 1], n, states[k].pending[n]) {
      assert ArmedAt(states, events, k - 1, k, n);
    } else {
      WatchRestartsAreDebounced(states, events, k - 1, n);
      var i: nat :| i < k - 1 && ArmedAt(states, events, i, k - 1, n);
      ArmedLonger(states, events, i, k - 1, n);
    }
  }

  lemma PendingStep(s: State, e: Event, s': State, n: string)
    requires Inv(s) && Next(s, e, s') && n in s'.pending
    ensures Arms(s, e, n, s'.pending[n]) || (n in s.pending && s'.pending[n] == s.pending[n])
  {
    assert SlotOk(n, SlotOf(s, n));
    assert SlotOf(s', n) == Effect(s, e, n);
    if IsRequest(e) {
      PendingFromRequest(s, e, n);
    } else {
      PendingFromBackground(s, e, n);
    }
  }

  lemma ArmedLonger(states: seq<State>, events: seq<Event>, i: nat, k: nat, n: string)
    requires i < k && k + 1 < |states| == |events| + 1 && n in states[k].pending && ArmedAt(states, events, i, k, n)
    requires n in states[k + 1].pending && states[k + 1].pending[n] == states[k].pending[n]
    ensures ArmedAt(states, events, i, k + 1, n)
  {
  }
}
