/** The daemon's process manager: one method per transition, working on its four
    maps in place, each proved to take exactly the step `Lifecycle` describes. */
module ProcessManagement {
  import opened Prelude
  import opened Domain
  import Text
  import CrashLimiter
  import opened Lifecycle
  import opened LifecycleInvariant
  import opened LifecycleMeaning
  import AutoName

  datatype Error = NotFound | Rejected | SpawnFailed | TerminateFailed | PullError

  datatype PullOutcome = PullOutcome(changed: bool, started: bool)

  datatype PullSummary = PullSummary(updated: nat, upToDate: nat, started: nat)

  /** `s'` differs from `s` only under `name`, where it holds `y`. */
  ghost predicate Only(s: State, s': State, name: string, y: Slot) {
    && SlotOf(s', name) == y
    && (forall m :: m != name ==> SlotOf(s', m) == SlotOf(s, m))
    && s'.nextId == s.nextId
  }

  lemma OnlyTwice(s: State, s1: State, s2: State, name: string, y: Slot, z: Slot)
    requires Only(s, s1, name, y) && Only(s1, s2, name, z)
    ensures Only(s, s2, name, z)
  {
  }

  lemma ResolvesUnique(s: State, target: string, m: string, n: string)
    requires Inv(s) && Resolves(s.processes, target, m) && Resolves(s.processes, target, n)
    ensures m == n
  {
  }

  // ---------------------------------------------------------------------
  // Passes over several processes
  // ---------------------------------------------------------------------

  /** Halfway through event `e`: the processes of `rest` are still to be handled. */
  ghost predicate Progress(s: State, e: Event, s': State, rest: set<string>) {
    && (forall n :: n in rest ==> SlotOf(s', n) == SlotOf(s, n))
    && (forall n :: n !in rest ==> SlotOf(s', n) == Effect(s, e, n))
    && s'.nextId == s.nextId
  }

  lemma ProgressStart(s: State, e: Event, rest: set<string>)
    requires forall n :: n !in rest ==> Effect(s, e, n) == SlotOf(s, n)
    ensures Progress(s, e, s, rest)
  {
  }

  lemma ProgressStep(s: State, e: Event, s1: State, s2: State, rest: set<string>, name: string)
    requires Progress(s, e, s1, rest) && name in rest
    requires Only(s1, s2, name, Effect(s, e, name))
    ensures Progress(s, e, s2, rest - {name})
  {
  }

  /** Whether a pass handles the process at all. */
  ghost predicate Handles(s: State, e: Event, name: string) {
    var x := SlotOf(s, name);
    match e
    case RunScheduled(now, _) => ScheduledDue(x, now)
    case RunCron(now, _) => CronDue(x, now)
    case RunDueWatch(now, _) => WatchDue(x, now)
    case CheckLimits(w) => LimitViolated(x, w(name))
    case CheckWatches(_) => WatchCandidate(x)
    case CheckHealth(now, _) => HealthDue(x, now)
    case _ => x.proc.Some?
  }

  ghost predicate IsPass(e: Event) {
    e.StopAll? || e.DeleteAll? || e.Shutdown? || e.RunScheduled? || e.RunCron? || e.RunDueWatch?
    || e.CheckLimits? || e.CheckWatches? || e.CheckHealth?
  }

  /** A pass that has yet to handle the processes of `rest`. Unless it has to save at
      its end, what it changed is saved already. */
  ghost predicate Halfway(s: State, e: Event, s': State, rest: set<string>, unsaved: bool) {
    && Progress(s, e, s', rest)
    && (unsaved || DiskFollows(s, s'))
    && (forall n :: n in rest ==> Handles(s, e, n))
  }

  lemma UnhandledStays(s: State, e: Event, name: string)
    requires IsPass(e) && !Handles(s, e, name)
    ensures Effect(s, e, name) == SlotOf(s, name)
  {
  }

  lemma PassBegins(s: State, e: Event, rest: set<string>, unsaved: bool)
    requires IsPass(e) && forall n :: n in rest <==> Handles(s, e, n)
    ensures Halfway(s, e, s, rest, unsaved)
  {
    forall n | n !in rest ensures Effect(s, e, n) == SlotOf(s, n) {
      UnhandledStays(s, e, n);
    }
    ProgressStart(s, e, rest);
  }

  lemma PassAt(s: State, e: Event, s': State, rest: set<string>, unsaved: bool, name: string)
    requires Halfway(s, e, s', rest, unsaved) && name in rest
    ensures SlotOf(s', name) == SlotOf(s, name) && Handles(s, e, name)
  {
  }

  lemma PassNext(s: State, e: Event, s1: State, s2: State, rest: set<string>, unsaved: bool, name: string, saved: bool)
    requires Halfway(s, e, s1, rest, unsaved) && name in rest && Only(s1, s2, name, Effect(s, e, name))
    requires saved ==> DiskFollows(s1, s2)
    ensures Halfway(s, e, s2, rest - {name}, unsaved || !saved)
  {
    ProgressStep(s, e, s1, s2, rest, name);
  }

  lemma PassEnds(s: State, e: Event, s': State)
    requires Halfway(s, e, s', {}, false) && IsPass(e)
    ensures Next(s, e, s')
  {
  }

  lemma SavedAtTheEnd(s: State, e: Event, s1: State, s2: State, unsaved: bool)
    requires Halfway(s, e, s1, {}, unsaved) && s2 == s1.(disk := Dump(s1.nextId, s1.processes))
    ensures Halfway(s, e, s2, {}, false)
  {
    forall n ensures SlotOf(s2, n) == Effect(s, e, n) {
      assert SlotOf(s1, n) == Effect(s, e, n);
    }
  }

  lemma ResetSlots(before: map<string, Proc>, s: State, w: string -> Outcome)
    requires s.processes == map n | n in before :: Recovered(before[n], w(n))
    requires s.scheduled == map[] && s.pending == map[] && s.watched == map[]
    ensures forall n :: SlotOf(s, n) ==
                        if n in before then Slot(Some(Recovered(before[n], w(n))), None, None, None) else EMPTY
  {
  }

  lemma StopAllKeepsNames(s: State, s': State)
    requires Next(s, StopAll, s')
    ensures s'.processes.Keys == s.processes.Keys
  {
    forall n ensures n in s'.processes <==> n in s.processes {
      assert SlotOf(s', n) == Effect(s, StopAll, n);
    }
  }

  lemma NothingLeft(s: State, s': State)
    requires Progress(s, DeleteAll, s', {})
    ensures s'.processes == map[]
  {
    forall n ensures n !in s'.processes {
      assert SlotOf(s', n) == Effect(s, DeleteAll, n);
    }
  }

  // ---------------------------------------------------------------------
  // Pulls
  // ---------------------------------------------------------------------

  /** What a pull request addresses. */
  ghost function PullTargets(s: State, service: Option<string>): set<string> {
    set n | n in s.processes &&
            if service.Some? then Resolves(s.processes, service.value, n) else s.processes[n].config.gitRepo.Some?
  }

  ghost predicate PullsOk(s: State, service: Option<string>, w: string -> Outcome) {
    PullTargets(s, service) != {} && forall n :: n in PullTargets(s, service) ==> PullOk(SlotOf(s, n), w(n))
  }

  ghost function ChangedBy(s: State, service: Option<string>, w: string -> Outcome): set<string> {
    set n | n in PullTargets(s, service) && w(n).pull == Changed
  }

  ghost function UnchangedBy(s: State, service: Option<string>, w: string -> Outcome): set<string> {
    PullTargets(s, service) - ChangedBy(s, service, w)
  }

  ghost function StartedBy(s: State, service: Option<string>, w: string -> Outcome): set<string> {
    set n | n in PullTargets(s, service) && PullStarts(SlotOf(s, n), w(n))
  }

  ghost function Summary(s: State, service: Option<string>, w: string -> Outcome): PullSummary {
    PullSummary(|ChangedBy(s, service, w)|, |UnchangedBy(s, service, w)|, |StartedBy(s, service, w)|)
  }

  /** The summary counts what became of the services `done`. */
  ghost predicate Summarises(summary: PullSummary, s: State, service: Option<string>, w: string -> Outcome,
                             done: set<string>) {
    && summary.updated == |done * ChangedBy(s, service, w)|
    && summary.upToDate == |done * UnchangedBy(s, service, w)|
    && summary.started == |done * StartedBy(s, service, w)|
  }

  function Tallied(summary: PullSummary, o: PullOutcome): PullSummary {
    PullSummary(summary.updated + if o.changed then 1 else 0,
                summary.upToDate + if o.changed then 0 else 1,
                summary.started + if o.started then 1 else 0)
  }

  lemma CountOneMore(done: set<string>, picked: set<string>, name: string)
    requires name !in done
    ensures |(done + {name}) * picked| == |done * picked| + if name in picked then 1 else 0
  {
    if name in picked {
      assert (done + {name}) * picked == done * picked + {name};
    } else {
      assert (done + {name}) * picked == done * picked;
    }
  }

  lemma SummariseNext(summary: PullSummary, s: State, service: Option<string>, w: string -> Outcome,
                      done: set<string>, name: string)
    requires Summarises(summary, s, service, w, done) && name in PullTargets(s, service) && name !in done
    ensures var o := PullOutcome(w(name).pull == Changed, PullStarts(SlotOf(s, name), w(name)));
            Summarises(Tallied(summary, o), s, service, w, done + {name})
  {
    CountOneMore(done, ChangedBy(s, service, w), name);
    CountOneMore(done, UnchangedBy(s, service, w), name);
    CountOneMore(done, StartedBy(s, service, w), name);
  }

  ghost predicate AllPulled(s: State, w: string -> Outcome, done: set<string>) {
    forall n :: n in done ==> PullOk(SlotOf(s, n), w(n))
  }

  /** The result so far, after the services `done`. */
  ghost predicate PulledSoFar(result: Option<PullSummary>, s: State, service: Option<string>, w: string -> Outcome,
                              done: set<string>) {
    && (result.Some? <==> AllPulled(s, w, done))
    && (result.Some? ==> Summarises(result.value, s, service, w, done))
  }

  function WithOutcome(result: Option<PullSummary>, o: Result<PullOutcome, Error>): Option<PullSummary> {
    if result.None? || o.Err? then None else Some(Tallied(result.value, o.value))
  }

  lemma PulledNext(result: Option<PullSummary>, s: State, service: Option<string>, w: string -> Outcome,
                   done: set<string>, name: string, o: Result<PullOutcome, Error>)
    requires PulledSoFar(result, s, service, w, done) && name in PullTargets(s, service) && name !in done
    requires o.Ok? <==> PullOk(SlotOf(s, name), w(name))
    requires o.Ok? ==> o.value == PullOutcome(w(name).pull == Changed, PullStarts(SlotOf(s, name), w(name)))
    ensures PulledSoFar(WithOutcome(result, o), s, service, w, done + {name})
  {
    AllPulledNext(s, w, done, name);
    if result.Some? {
      SummariseNext(result.value, s, service, w, done, name);
    }
  }

  lemma AllPulledNext(s: State, w: string -> Outcome, done: set<string>, name: string)
    ensures AllPulled(s, w, done + {name}) <==> AllPulled(s, w, done) && PullOk(SlotOf(s, name), w(name))
  {
    assert name in done + {name};
    assert forall n :: n in done ==> n in done + {name};
  }

  lemma PulledAll(result: Option<PullSummary>, s: State, service: Option<string>, w: string -> Outcome)
    requires PulledSoFar(result, s, service, w, PullTargets(s, service)) && PullTargets(s, service) != {}
    ensures result.Some? <==> PullsOk(s, service, w)
    ensures result.Some? ==> result.value == Summary(s, service, w)
  {
    var targets := PullTargets(s, service);
    Within(targets, ChangedBy(s, service, w));
    Within(targets, UnchangedBy(s, service, w));
    Within(targets, StartedBy(s, service, w));
  }

  lemma Within(all: set<string>, some: set<string>)
    requires some <= all
    ensures all * some == some
  {
  }

  /** Nothing changes for a service the request does not address. */
  lemma OthersNotPulled(s: State, service: Option<string>, w: string -> Outcome, n: string)
    requires n !in PullTargets(s, service)
    ensures Effect(s, Pull(service, w), n) == SlotOf(s, n)
  {
    if service.Some? {
      assert !Resolves(s.processes, service.value, n);
    } else {
      assert PullSlot(SlotOf(s, n), w(n)) == SlotOf(s, n);
    }
  }

  lemma PullEffect(s: State, service: Option<string>, w: string -> Outcome, n: string)
    requires n in PullTargets(s, service)
    ensures Effect(s, Pull(service, w), n) == PullSlot(SlotOf(s, n), w(n))
  {
  }

  /** A pull that has yet to handle the services of `rest`. */
  ghost predicate PullHalfway(s: State, service: Option<string>, w: string -> Outcome, s': State,
                              result: Option<PullSummary>, rest: set<string>) {
    && Progress(s, Pull(service, w), s', rest) && DiskFollows(s, s')
    && PulledSoFar(result, s, service, w, PullTargets(s, service) - rest)
  }

  lemma PullBegins(s: State, service: Option<string>, w: string -> Outcome)
    ensures PullHalfway(s, service, w, s, Some(PullSummary(0, 0, 0)), PullTargets(s, service))
  {
    var targets := PullTargets(s, service);
    forall n | n !in targets ensures Effect(s, Pull(service, w), n) == SlotOf(s, n) {
      OthersNotPulled(s, service, w, n);
    }
    ProgressStart(s, Pull(service, w), targets);
    assert targets - targets == {};
    assert {} * ChangedBy(s, service, w) == {} * UnchangedBy(s, service, w) == {} * StartedBy(s, service, w) == {};
  }

  lemma PullHalfwayNext(s: State, service: Option<string>, w: string -> Outcome, s1: State, s2: State,
                        before: Option<PullSummary>, rest: set<string>, name: string, o: Result<PullOutcome, Error>)
    requires PullHalfway(s, service, w, s1, before, rest) && name in rest && rest <= PullTargets(s, service)
    requires Only(s1, s2, name, PullSlot(SlotOf(s1, name), w(name))) && DiskFollows(s1, s2)
    requires o.Ok? <==> PullOk(SlotOf(s1, name), w(name))
    requires o.Ok? ==> o.value == PullOutcome(w(name).pull == Changed, PullStarts(SlotOf(s1, name), w(name)))
    ensures PullHalfway(s, service, w, s2, WithOutcome(before, o), rest - {name})
  {
    PullProgressNext(s, service, w, s1, s2, rest, name);
    HandledNext(PullTargets(s, service), rest, name);
    PulledNext(before, s, service, w, PullTargets(s, service) - rest, name, o);
  }

  lemma PullProgressNext(s: State, service: Option<string>, w: string -> Outcome, s1: State, s2: State,
                         rest: set<string>, name: string)
    requires Progress(s, Pull(service, w), s1, rest) && name in rest && name in PullTargets(s, service)
    requires Only(s1, s2, name, PullSlot(SlotOf(s1, name), w(name)))
    ensures Progress(s, Pull(service, w), s2, rest - {name}) && SlotOf(s1, name) == SlotOf(s, name)
  {
    PullEffect(s, service, w, name);
    ProgressStep(s, Pull(service, w), s1, s2, rest, name);
  }

  lemma HandledNext(all: set<string>, rest: set<string>, name: string)
    requires name in rest && rest <= all
    ensures (all - rest) + {name} == all - (rest - {name})
  {
  }

  lemma PullEnds(s: State, service: Option<string>, w: string -> Outcome, s': State, result: Option<PullSummary>)
    requires PullHalfway(s, service, w, s', result, {})
    ensures Next(s, Pull(service, w), s') && PulledSoFar(result, s, service, w, PullTargets(s, service))
  {
    assert PullTargets(s, service) - {} == PullTargets(s, service);
  }

  class ProcessManager {
    var processes: map<string, Proc>
    var scheduled: map<string, nat>
    var pending: map<string, Pending>
    var watched: map<string, nat>
    var nextId: nat
    var disk: Disk

    ghost function View(): State
      reads this
    {
      State(processes, scheduled, pending, watched, nextId, disk)
    }

    // -------------------------------------------------------------------
    // Loading and saving
    // -------------------------------------------------------------------

    /** Rebuilds the manager from the state file, before recovery. */
    constructor (d: Disk, now: nat)
      ensures processes == map n | n in d.processes :: Loaded(d.processes[n], now)
      ensures scheduled == map[] && pending == map[] && watched == map[] && disk == d
      ensures ContinuesFrom(d, nextId)
    {
      var counter := if d.nextId > 1 then d.nextId else 1;
      var rest := d.processes.Keys;
      while rest != {}
        invariant rest <= d.processes.Keys
        invariant d.nextId <= counter && 1 <= counter
        invariant forall n :: n in d.processes && n !in rest ==> d.processes[n].id < counter
        invariant counter == d.nextId || counter == 1 || exists n :: n in d.processes && d.processes[n].id + 1 == counter
        decreases |rest|
      {
        var n :| n in rest;
        if d.processes[n].id + 1 > counter {
          counter := d.processes[n].id + 1;
        }
        rest := rest - {n};
      }
      processes := map n | n in d.processes :: Loaded(d.processes[n], now);
      scheduled, pending, watched := map[], map[], map[];
      nextId := counter;
      disk := d;
    }

    method Save()
      modifies this`disk
      ensures disk == Dump(nextId, processes)
    {
      disk := Disk(nextId, map n | n in processes :: Persisted(processes[n]));
    }

    /** Saves what a pass has not saved on its way. */
    method SaveAtTheEnd(shouldSave: bool, ghost start: State, ghost e: Event)
      requires Halfway(start, e, View(), {}, shouldSave) && IsPass(e)
      modifies this`disk
      ensures Next(start, e, View())
    {
      ghost var here := View();
      if shouldSave {
        Save();
        SavedAtTheEnd(start, e, here, View(), shouldSave);
      }
      PassEnds(start, e, View());
    }

    /** Reconciles the loaded records with the machine and respawns what should run. */
    method RecoverProcesses(w: string -> Outcome)
      modifies this
      ensures forall n :: SlotOf(View(), n) ==
                          if n in old(processes) then RecoverSlot(old(processes[n]), w(n)) else EMPTY
      ensures nextId == old(nextId) && disk == Dump(nextId, processes)
    {
      var shouldStart := set n | n in processes && processes[n].desired == WantRunning;
      ResetAll(w);
      RespawnAll(shouldStart, w);
      Save();
    }

    method ResetAll(w: string -> Outcome)
      modifies this
      ensures forall n :: SlotOf(View(), n) ==
                          if n in old(processes) then Slot(Some(Recovered(old(processes[n]), w(n))), None, None, None)
                          else EMPTY
      ensures nextId == old(nextId) && processes.Keys == old(processes).Keys
    {
      processes := map n | n in processes :: Recovered(processes[n], w(n));
      scheduled, pending, watched := map[], map[], map[];
      Save();
      ResetSlots(old(processes), View(), w);
    }

    method RespawnAll(shouldStart: set<string>, w: string -> Outcome)
      requires shouldStart <= processes.Keys
      modifies this
      ensures forall n :: n !in shouldStart ==> SlotOf(View(), n) == old(SlotOf(View(), n))
      ensures forall n :: n in shouldStart ==> SlotOf(View(), n) == RespawnSlot(old(SlotOf(View(), n)), w(n))
      ensures nextId == old(nextId)
    {
      ghost var start := View();
      var rest := shouldStart;
      while rest != {}
        invariant rest <= shouldStart && shouldStart <= processes.Keys
        invariant forall n :: n !in shouldStart || n in rest ==> SlotOf(View(), n) == SlotOf(start, n)
        invariant forall n :: n in shouldStart && n !in rest ==>
                                SlotOf(View(), n) == RespawnSlot(SlotOf(start, n), w(n))
        invariant nextId == old(nextId)
        decreases |rest|
      {
        var name :| name in rest;
        rest := rest - {name};
        ghost var before := View();
        assert SlotOf(before, name) == SlotOf(start, name);
        Respawn(name, w(name));
      }
    }

    method Respawn(name: string, o: Outcome)
      requires name in processes
      modifies this
      ensures Only(old(View()), View(), name, RespawnSlot(old(SlotOf(View(), name)), o))
      ensures processes.Keys == old(processes).Keys
    {
      var ok := SpawnExisting(name, o);
      if !ok {
        processes := processes[name := processes[name].(status := Errored)];
      }
    }

    /** A daemon start as one step: load what the previous daemon saved, then recover. */
    static method StartDaemon(previous: ProcessManager, now: nat, w: string -> Outcome)
      returns (manager: ProcessManager)
      ensures fresh(manager)
      ensures Next(previous.View(), DaemonRestart(now, w), manager.View())
    {
      manager := new ProcessManager(previous.disk, now);
      manager.RecoverProcesses(w);
    }

    // -------------------------------------------------------------------
    // Pieces
    // -------------------------------------------------------------------

    method ResolveTarget(target: string) returns (r: Option<string>)
      requires Inv(View())
      ensures r.Some? ==> r.value in processes
      ensures forall n :: Resolves(processes, target, n) <==> r == Some(n)
    {
      if target in processes {
        return Some(target);
      }
      var id := Text.ParseUnsigned(target, U64_MAX);
      if id.Some? {
        var rest := processes.Keys;
        while rest != {}
          invariant rest <= processes.Keys
          invariant forall n :: n in processes && n !in rest ==> processes[n].id != id.value
          decreases |rest|
        {
          var n :| n in rest;
          if processes[n].id == id.value {
            forall m | Resolves(processes, target, m) ensures m == n {
              ResolvesUnique(View(), target, m, n);
            }
            return Some(n);
          }
          rest := rest - {n};
        }
      }
      return None;
    }

    method UpdateWatchFingerprint(name: string, o: Outcome)
      requires name in processes && processes[name].status == Running
      modifies this`watched, this`pending
      ensures pending == old(pending) - {name}
      ensures watched == if processes[name].config.watch && o.rescan.Some?
                         then old(watched)[name := o.rescan.value] else old(watched) - {name}
    {
      pending := pending - {name};
      if processes[name].config.watch && o.rescan.Some? {
        watched := watched[name := o.rescan.value];
      } else {
        watched := watched - {name};
      }
    }

    /** Spawns a child for a known process. */
    method SpawnExisting(name: string, o: Outcome) returns (ok: bool)
      requires name in processes
      modifies this
      ensures ok == o.spawned.Some?
      ensures ok ==> Only(old(View()), View(), name,
                          Attached(Launched(old(processes[name]), o.spawned.value, o.epoch), o))
      ensures ok ==> disk == Dump(nextId, processes)
      ensures !ok ==> View() == old(View())
      ensures processes.Keys == old(processes).Keys
    {
      if o.spawned.None? {
        return false;
      }
      Attach(name, Launched(processes[name], o.spawned.value, o.epoch), o);
      return true;
    }

    /** Stores the record of a new child: nothing is pending beside it, its watch
        baseline is taken, and all is saved. */
    method Attach(name: string, record: Proc, o: Outcome)
      requires name in processes && record.status == Running
      modifies this
      ensures Only(old(View()), View(), name, Attached(record, o))
      ensures disk == Dump(nextId, processes) && processes == old(processes)[name := record]
    {
      scheduled := scheduled - {name};
      pending := pending - {name};
      processes := processes[name := record];
      UpdateWatchFingerprint(name, o);
      Save();
    }

    /** Stores a record and drops everything that was pending beside it. */
    method Detach(name: string, record: Proc)
      modifies this`processes, this`scheduled, this`pending, this`watched
      ensures Only(old(View()), View(), name, Slot(Some(record), None, None, None))
      ensures name in processes && processes[name] == record && processes.Keys == old(processes).Keys + {name}
    {
      watched := watched - {name};
      pending := pending - {name};
      scheduled := scheduled - {name};
      processes := processes[name := record];
    }

    method RestartInternal(name: string, reset: bool, o: Outcome) returns (ok: bool)
      requires name in processes
      modifies this
      ensures ok == old(RestartOk(SlotOf(View(), name), o))
      ensures Only(old(View()), View(), name, RestartSlot(old(SlotOf(View(), name)), reset, o))
      ensures disk == Dump(nextId, processes) || View() == old(View())
      ensures processes.Keys == old(processes).Keys
    {
      if processes[name].pid.Some? && !o.terminated {
        return false;
      }
      ghost var before := View();
      var wiped := Wiped(processes[name], reset, o.epoch);
      Detach(name, wiped);
      ghost var detached := View();
      ok := SpawnExisting(name, o);
      if !ok {
        processes := processes[name := GaveUp(processes[name])];
        Save();
      }
      OnlyTwice(before, detached, View(), name, SlotOf(detached, name), SlotOf(View(), name));
    }

    // -------------------------------------------------------------------
    // Requests
    // -------------------------------------------------------------------

    method StartProcess(r: StartRequest, o: Outcome) returns (result: Result<Proc, Error>)
      requires Inv(View()) && |processes| < U64_MAX
      modifies this
      ensures Next(old(View()), Start(r, o), View())
      ensures result.Ok? <==> NameAccepted(old(processes), r) && o.spawned.Some?
      ensures result.Ok? ==> Names(old(processes), r, result.value.name)
                             && result.value.name in processes && processes[result.value.name] == result.value
    {
      var chosen := ChooseName(r);
      if chosen.None? {
        return Err(Rejected);
      }
      var name := chosen.value;
      assert SlotOk(name, SlotOf(View(), name));
      var id := nextId;
      nextId := SatAdd(nextId, 1, U64_MAX);
      if o.spawned.None? {
        return Err(SpawnFailed);
      }
      var process := Fresh(id, name, r.config, r.logs, o, o.spawned.value);
      Register(name, process, o);
      return Ok(process);
    }

    /** The name a request registers, if it is acceptable. */
    method ChooseName(r: StartRequest) returns (name: Option<string>)
      requires Inv(View()) && |processes| < U64_MAX
      ensures name.Some? <==> NameAccepted(processes, r)
      ensures forall n :: Names(processes, r, n) <==> name == Some(n)
    {
      if !r.parses {
        return None;
      }
      if r.name.Some? {
        return if ValidName(r.name.value) && r.name.value !in processes then r.name else None;
      }
      var generated := AutoName.GenerateAutoName(processes.Keys, r.stem);
      forall n ensures Names(processes, r, n) <==> n == generated {
        if Names(processes, r, n) {
          StartedNameIsUnique(View(), r, n, generated);
        }
      }
      return Some(generated);
    }

    method Register(name: string, process: Proc, o: Outcome)
      requires process.status == Running
      modifies this
      ensures Only(old(View()), View(), name, Attached(process, o).(scheduled := old(SlotOf(View(), name)).scheduled))
      ensures disk == Dump(nextId, processes) && name in processes && processes[name] == process
    {
      processes := processes[name := process];
      UpdateWatchFingerprint(name, o);
      Save();
    }

    method StopProcess(target: string, o: Outcome) returns (result: Result<Proc, Error>)
      requires Inv(View())
      modifies this
      ensures Next(old(View()), Stop(target, o), View())
      ensures result.Ok? <==> exists n :: Resolves(old(processes), target, n) && StopOk(old(SlotOf(View(), n)), o)
      ensures result.Ok? ==> result.value.pid.None? && result.value.desired == WantStopped
                             && result.value.name in processes && processes[result.value.name] == result.value
    {
      var resolved := ResolveTarget(target);
      if resolved.None? {
        return Err(NotFound);
      }
      var name := resolved.value;
      assert SlotOk(name, SlotOf(View(), name));
      if processes[name].pid.Some? && !o.terminated {
        return Err(TerminateFailed);
      }
      Detach(name, Parked(processes[name]));
      Save();
      return Ok(processes[name]);
    }

    method StopAllProcesses()
      modifies this
      ensures Next(old(View()), StopAll, View())
      ensures processes.Keys == old(processes).Keys
    {
      ghost var start := View();
      var rest := processes.Keys;
      PassBegins(start, StopAll, rest, true);
      while rest != {}
        invariant Halfway(start, StopAll, View(), rest, true)
        decreases |rest|
      {
        var name :| name in rest;
        ghost var here := View();
        PassAt(start, StopAll, here, rest, true, name);
        Detach(name, Parked(processes[name]));
        PassNext(start, StopAll, here, View(), rest, true, name, false);
        rest := rest - {name};
      }
      SaveAtTheEnd(true, start, StopAll);
      StopAllKeepsNames(start, View());
    }

    method ShutdownAll()
      modifies this
      ensures Next(old(View()), Shutdown, View())
    {
      ghost var start := View();
      var rest := processes.Keys;
      PassBegins(start, Shutdown, rest, true);
      while rest != {}
        invariant Halfway(start, Shutdown, View(), rest, true)
        decreases |rest|
      {
        var name :| name in rest;
        ghost var here := View();
        PassAt(start, Shutdown, here, rest, true, name);
        Detach(name, Parked(processes[name]).(healthFailures := processes[name].healthFailures));
        PassNext(start, Shutdown, here, View(), rest, true, name, false);
        rest := rest - {name};
      }
      SaveAtTheEnd(true, start, Shutdown);
    }

    method RestartProcess(target: string, o: Outcome) returns (result: Result<Proc, Error>)
      requires Inv(View())
      modifies this
      ensures Next(old(View()), Restart(target, o), View())
      ensures result.Ok? ==> IsUp(result.value) && result.value.name in processes
                             && processes[result.value.name] == result.value
      ensures result.Ok? <==> exists n :: Resolves(old(processes), target, n) && RestartOk(old(SlotOf(View(), n)), o)
    {
      var resolved := ResolveTarget(target);
      if resolved.None? {
        return Err(NotFound);
      }
      var name := resolved.value;
      assert SlotOk(name, SlotOf(View(), name));
      var ok := RestartInternal(name, true, o);
      if !ok {
        return Err(SpawnFailed);
      }
      assert SlotOf(View(), name).proc.Some?;
      return Ok(processes[name]);
    }

    /** Restarts one process after the other in map order, up to the first failure. */
    method RestartAllProcesses(w: string -> Outcome) returns (ok: bool, ghost order: seq<string>)
      modifies this
      ensures Next(old(View()), RestartAll(order, w), View())
      ensures ok <==> forall n :: n in old(processes) ==> RestartOk(old(SlotOf(View(), n)), w(n))
      ensures ok ==> forall n :: n in old(processes) ==> ReachedBy(old(View()), order, w, n)
      ensures !ok ==> order != [] && !RestartOk(old(SlotOf(View(), order[|order| - 1])), w(order[|order| - 1]))
    {
      ghost var start := View();
      ghost var done;
      ok, order, done := RestartEach(w);
      forall n ensures ReachedBy(start, order, w, n) <==> n in done {
        ReachedIsAttempted(start, order, done, w, ok, n);
      }
      if ok {
        AllAttemptsOk(start, order, done, w);
      }
      OrderIsComplete(start, order, done, w, ok);
    }

    method RestartEach(w: string -> Outcome) returns (ok: bool, ghost order: seq<string>, ghost done: set<string>)
      modifies this
      ensures Attempted(old(View()), order, done, w, ok)
      ensures RestartedExactly(old(View()), View(), done, w)
      ensures ok ==> old(processes).Keys <= done
      ensures forall j :: 0 <= j < |order| ==> order[j] in old(processes)
      ensures nextId == old(nextId) && DiskFollows(old(View()), View())
    {
      ghost var start := View();
      var names := processes.Keys;
      order, ok := [], true;
      RestartsBegin(start, w);
      while names != {} && ok
        invariant RestartsHalfway(start, View(), order, names, w, ok)
        decreases |names|
      {
        var name :| name in names;
        ok := RestartNext(name, w, start, order, names);
        names, order := names - {name}, order + [name];
      }
      done := start.processes.Keys - names;
    }

    method RestartNext(name: string, w: string -> Outcome, ghost start: State, ghost order: seq<string>,
                       ghost names: set<string>) returns (ok: bool)
      requires name in names && RestartsHalfway(start, View(), order, names, w, true)
      modifies this
      ensures RestartsHalfway(start, View(), order + [name], names - {name}, w, ok)
    {
      ghost var here := View();
      RestartsAt(start, here, order, names, w, name);
      ok := RestartInternal(name, true, w(name));
      RestartsNext(start, here, View(), order, names, w, name, ok);
    }

    method ReloadProcess(target: string, o: Outcome) returns (ok: bool)
      requires Inv(View())
      modifies this
      ensures Next(old(View()), Reload(target, o), View())
      ensures ok <==> exists n :: Resolves(old(processes), target, n) && ReloadOk(old(SlotOf(View(), n)), o)
      ensures ok ==> exists n :: Resolves(old(processes), target, n) && n in processes && IsUp(processes[n])
    {
      var resolved := ResolveTarget(target);
      if resolved.None? {
        return false;
      }
      ok := ReloadKnown(resolved.value, o);
    }

    method ReloadKnown(name: string, o: Outcome) returns (ok: bool)
      requires name in processes
      modifies this
      ensures ok == old(ReloadOk(SlotOf(View(), name), o))
      ensures Only(old(View()), View(), name, ReloadSlot(old(SlotOf(View(), name)), o))
      ensures DiskFollows(old(View()), View()) && processes.Keys == old(processes).Keys
      ensures ok ==> IsUp(processes[name])
    {
      if processes[name].config.preReloadCmd.Some? && !o.preReloadOk {
        return false;
      }
      if processes[name].pid.None? {
        ok := RestartInternal(name, true, o);
        assert ok ==> SlotOf(View(), name).proc.Some?;
        return;
      }
      if o.spawned.None? {
        return false;
      }
      Replace(name, o);
      return true;
    }

    /** Puts a new child in the place of a running one. */
    method Replace(name: string, o: Outcome)
      requires name in processes && o.spawned.Some?
      modifies this
      ensures Only(old(View()), View(), name, Attached(Replaced(old(processes[name]), o.spawned.value, o.epoch), o))
      ensures disk == Dump(nextId, processes) && processes.Keys == old(processes).Keys
      ensures name in processes && IsUp(processes[name])
    {
      Attach(name, Replaced(processes[name], o.spawned.value, o.epoch), o);
    }

    method Forget(name: string)
      modifies this
      ensures Only(old(View()), View(), name, EMPTY)
      ensures disk == old(disk)
    {
      processes := processes - {name};
      watched := watched - {name};
      pending := pending - {name};
      scheduled := scheduled - {name};
    }

    method DeleteProcess(target: string) returns (result: Result<Proc, Error>)
      requires Inv(View())
      modifies this
      ensures Next(old(View()), Delete(target), View())
      ensures result.Ok? <==> exists n :: Resolves(old(processes), target, n)
      ensures result.Ok? ==> result.value.name !in processes
    {
      var resolved := ResolveTarget(target);
      if resolved.None? {
        return Err(NotFound);
      }
      var name := resolved.value;
      assert SlotOk(name, SlotOf(View(), name));
      var removed := processes[name];
      Forget(name);
      assert SlotOf(View(), name).proc.None?;
      Save();
      return Ok(removed);
    }

    method DeleteAllProcesses()
      modifies this
      ensures Next(old(View()), DeleteAll, View())
      ensures processes == map[]
    {
      ghost var start := View();
      var rest := processes.Keys;
      PassBegins(start, DeleteAll, rest, true);
      while rest != {}
        invariant Halfway(start, DeleteAll, View(), rest, true)
        decreases |rest|
      {
        var name :| name in rest;
        ghost var here := View();
        PassAt(start, DeleteAll, here, rest, true, name);
        Forget(name);
        PassNext(start, DeleteAll, here, View(), rest, true, name, false);
        rest := rest - {name};
      }
      NothingLeft(start, View());
      SaveAtTheEnd(true, start, DeleteAll);
    }

    /** Pulls one service, or every one configured with a repository. It succeeds when
        there is something to pull and every pull succeeds. */
    method PullProcesses(service: Option<string>, w: string -> Outcome) returns (result: Result<PullSummary, Error>)
      requires Inv(View())
      modifies this
      ensures Next(old(View()), Pull(service, w), View())
      ensures result.Ok? <==> PullsOk(old(View()), service, w)
      ensures result.Ok? ==> result.value == Summary(old(View()), service, w)
    {
      ghost var start := View();
      var targets := NamesToPull(service);
      var summary := PullEach(targets, service, w);
      if targets == {} {
        return Err(NotFound);
      }
      PulledAll(summary, start, service, w);
      return if summary.Some? then Ok(summary.value) else Err(PullError);
    }

    method NamesToPull(service: Option<string>) returns (targets: set<string>)
      requires Inv(View())
      ensures targets == PullTargets(View(), service)
    {
      if service.Some? {
        var resolved := ResolveTarget(service.value);
        targets := if resolved.Some? then {resolved.value} else {};
      } else {
        targets := set n | n in processes && processes[n].config.gitRepo.Some?;
      }
    }

    method PullEach(targets: set<string>, ghost service: Option<string>, w: string -> Outcome)
      returns (summary: Option<PullSummary>)
      requires targets == PullTargets(View(), service)
      modifies this
      ensures Next(old(View()), Pull(service, w), View())
      ensures PulledSoFar(summary, old(View()), service, w, targets)
    {
      ghost var start := View();
      var rest := targets;
      summary := Some(PullSummary(0, 0, 0));
      PullBegins(start, service, w);
      while rest != {}
        invariant rest <= targets <= processes.Keys
        invariant PullHalfway(start, service, w, View(), summary, rest)
        decreases |rest|
      {
        var name :| name in rest;
        summary := PullNext(name, summary, w, start, service, rest);
        rest := rest - {name};
      }
      PullEnds(start, service, w, View(), summary);
    }

    method PullNext(name: string, before: Option<PullSummary>, w: string -> Outcome, ghost start: State,
                    ghost service: Option<string>, ghost rest: set<string>)
      returns (summary: Option<PullSummary>)
      requires name in rest && name in processes && rest <= PullTargets(start, service)
      requires PullHalfway(start, service, w, View(), before, rest)
      modifies this
      ensures PullHalfway(start, service, w, View(), summary, rest - {name})
      ensures processes.Keys == old(processes).Keys
    {
      ghost var here := View();
      var outcome := PullSingle(name, w(name));
      PullHalfwayNext(start, service, w, here, View(), before, rest, name, outcome);
      summary := WithOutcome(before, outcome);
    }

    method PullSingle(name: string, o: Outcome) returns (result: Result<PullOutcome, Error>)
      requires name in processes
      modifies this
      ensures Only(old(View()), View(), name, PullSlot(old(SlotOf(View(), name)), o))
      ensures DiskFollows(old(View()), View()) && processes.Keys == old(processes).Keys
      ensures result.Ok? <==> old(PullOk(SlotOf(View(), name), o))
      ensures result.Ok? ==> result.value == PullOutcome(o.pull == Changed, old(PullStarts(SlotOf(View(), name), o)))
    {
      var snapshot := processes[name];
      if snapshot.config.gitRepo.None? || snapshot.config.cwd.None? || o.pull == PullFailed {
        return Err(PullError);
      }
      if o.pull == Unchanged {
        return Ok(PullOutcome(false, false));
      }
      if IsUp(snapshot) {
        var ok := ReloadKnown(name, o);
        return if ok then Ok(PullOutcome(true, true)) else Err(PullError);
      }
      if snapshot.desired == WantRunning {
        var ok := RestartInternal(name, true, o);
        return if ok then Ok(PullOutcome(true, true)) else Err(PullError);
      }
      return Ok(PullOutcome(true, false));
    }

    // -------------------------------------------------------------------
    // Exit events
    // -------------------------------------------------------------------

    /** An event of another child than the current one changes nothing. */
    method HandleExitEvent(e: ExitEvent, o: Outcome)
      modifies this
      ensures Next(old(View()), Exit(e, o), View())
      ensures e.name !in old(processes) ==> View() == old(View())
      ensures e.name in old(processes) && old(processes)[e.name].pid.Some? && old(processes)[e.name].pid != Some(e.pid) ==>
                View() == old(View())
      ensures e.name in old(processes) && old(processes)[e.name].pid.None? && old(processes)[e.name].desired == WantRunning ==>
                View() == old(View())
      ensures e.name in old(processes) && old(processes)[e.name].pid == Some(e.pid) ==>
                AfterExit(old(processes)[e.name], e, o, SlotOf(View(), e.name))
    {
      ghost var before := View();
      if e.name in processes && ExitMatches(processes[e.name], e) {
        HandleExit(e, o);
      }
      ExitMeans(before, e, o, View());
    }

    method HandleExit(e: ExitEvent, o: Outcome)
      requires e.name in processes && ExitMatches(processes[e.name], e)
      modifies this
      ensures Only(old(View()), View(), e.name, ExitSlot(old(SlotOf(View(), e.name)), e, o))
      ensures disk == Dump(nextId, processes)
    {
      var process := processes[e.name].(pid := None);
      watched := watched - {e.name};
      pending := pending - {e.name};
      scheduled := scheduled - {e.name};
      if process.desired == WantStopped {
        StoreExited(e.name, process.(status := Stopped, backoffAttempt := 0, nextHealthCheck := None, history := []));
      } else if CanAutoRestart(process, e) {
        HandleAutoRestart(e.name, process, o);
      } else {
        StoreExited(e.name, process.(status := TerminalStatus(e), backoffAttempt := 0, nextHealthCheck := None,
                                     history := []));
      }
    }

    method StoreExited(name: string, record: Proc)
      requires name !in scheduled && name !in pending && name !in watched
      modifies this`processes, this`disk
      ensures Only(old(View()), View(), name, Slot(Some(record), None, None, None))
      ensures disk == Dump(nextId, processes)
    {
      processes := processes[name := record];
      Save();
    }

    method HandleAutoRestart(name: string, process: Proc, o: Outcome)
      requires name !in scheduled && name !in pending && name !in watched
      modifies this
      ensures Only(old(View()), View(), name, AutoRestartSlot(process, o))
      ensures disk == Dump(nextId, processes)
      ensures AutoRestarted(process, o, SlotOf(View(), name))
    {
      AutoRestartMeans(process, o);
      if CrashLimiter.LimitReached(process.history, process.config.crashRestartLimit, o.epoch) {
        processes := processes[name := CrashLooped(process, o.epoch)];
        Save();
        return;
      }
      var delay := RestartDelay(process.config, BackoffAttempt(process, o.epoch), o.jitter);
      processes := processes[name := MarkedRestarting(process, o)];
      if delay == 0 {
        var ok := SpawnExisting(name, o);
        if !ok {
          processes := processes[name := GaveUp(processes[name])];
          Save();
        }
        return;
      }
      scheduled := scheduled[name := o.instant + delay];
      Save();
    }

    // -------------------------------------------------------------------
    // Periodic tasks
    // -------------------------------------------------------------------

    method RunScheduledRestarts(now: nat, w: string -> Outcome)
      modifies this
      ensures Next(old(View()), RunScheduled(now, w), View())
    {
      ghost var start := View();
      var rest := set n | n in scheduled && scheduled[n] <= now;
      PassBegins(start, RunScheduled(now, w), rest, false);
      while rest != {}
        invariant Halfway(start, RunScheduled(now, w), View(), rest, false)
        decreases |rest|
      {
        var name :| name in rest;
        RunScheduledNext(name, now, w, start, rest);
        rest := rest - {name};
      }
      PassEnds(start, RunScheduled(now, w), View());
    }

    method RunScheduledNext(name: string, now: nat, w: string -> Outcome, ghost start: State, ghost rest: set<string>)
      requires name in rest && Halfway(start, RunScheduled(now, w), View(), rest, false)
      modifies this
      ensures Halfway(start, RunScheduled(now, w), View(), rest - {name}, false)
    {
      ghost var here := View();
      PassAt(start, RunScheduled(now, w), here, rest, false, name);
      RunOneScheduled(name, now, w(name));
      PassNext(start, RunScheduled(now, w), here, View(), rest, false, name, true);
    }

    method RunOneScheduled(name: string, now: nat, o: Outcome)
      requires ScheduledDue(SlotOf(View(), name), now)
      modifies this
      ensures Only(old(View()), View(), name, ScheduledSlot(old(SlotOf(View(), name)), now, o))
      ensures DiskFollows(old(View()), View())
    {
      scheduled := scheduled - {name};
      if name !in processes {
        return;
      }
      if processes[name].desired != WantRunning || processes[name].status != Restarting {
        return;
      }
      var ok := SpawnExisting(name, o);
      if !ok {
        processes := processes[name := GaveUp(processes[name])];
        Save();
      }
    }

    /** A restart the daemon triggers itself. */
    method RestartTriggered(name: string, count: nat, o: Outcome) returns (ok: bool)
      requires name in processes
      modifies this
      ensures ok == old(RestartOk(SlotOf(View(), name), o))
      ensures Only(old(View()), View(), name, TriggeredSlot(old(SlotOf(View(), name)), count, o))
      ensures name in processes
    {
      ok := RestartInternal(name, false, o);
      assert SlotOf(View(), name).proc.Some?;
      if ok {
        processes := processes[name := processes[name].(restartCount := Incremented(count))];
      } else {
        processes := processes[name := processes[name].(status := Errored)];
      }
    }

    method RunCronRestarts(now: nat, w: string -> Outcome)
      modifies this
      ensures Next(old(View()), RunCron(now, w), View())
    {
      ghost var start := View();
      var rest := set n | n in processes && CronDue(Slot(Some(processes[n]), None, None, None), now);
      PassBegins(start, RunCron(now, w), rest, false);
      while rest != {}
        invariant Halfway(start, RunCron(now, w), View(), rest, false)
        decreases |rest|
      {
        var name :| name in rest;
        RunCronNext(name, now, w, start, rest);
        rest := rest - {name};
      }
      PassEnds(start, RunCron(now, w), View());
    }

    method RunCronNext(name: string, now: nat, w: string -> Outcome, ghost start: State, ghost rest: set<string>)
      requires name in rest && Halfway(start, RunCron(now, w), View(), rest, false)
      modifies this
      ensures Halfway(start, RunCron(now, w), View(), rest - {name}, false)
    {
      ghost var here := View();
      PassAt(start, RunCron(now, w), here, rest, false, name);
      RunOneCron(name, now, w(name));
      PassNext(start, RunCron(now, w), here, View(), rest, false, name, true);
    }

    method RunOneCron(name: string, now: nat, o: Outcome)
      requires CronDue(SlotOf(View(), name), now)
      modifies this
      ensures Only(old(View()), View(), name, CronSlot(old(SlotOf(View(), name)), now, o))
      ensures disk == Dump(nextId, processes)
    {
      var ok := RestartTriggered(name, processes[name].restartCount, o);
      if ok && o.cronNext.Some? {
        processes := processes[name := processes[name].(nextCronRestart := o.cronNext)];
      }
      Save();
    }

    method RunDueWatchRestarts(now: nat, w: string -> Outcome)
      modifies this
      ensures Next(old(View()), RunDueWatch(now, w), View())
    {
      ghost var start := View();
      var rest := set n | n in pending && pending[n].dueAt <= now;
      PassBegins(start, RunDueWatch(now, w), rest, false);
      while rest != {}
        invariant Halfway(start, RunDueWatch(now, w), View(), rest, false)
        decreases |rest|
      {
        var name :| name in rest;
        RunDueWatchNext(name, now, w, start, rest);
        rest := rest - {name};
      }
      PassEnds(start, RunDueWatch(now, w), View());
    }

    method RunDueWatchNext(name: string, now: nat, w: string -> Outcome, ghost start: State, ghost rest: set<string>)
      requires name in rest && Halfway(start, RunDueWatch(now, w), View(), rest, false)
      modifies this
      ensures Halfway(start, RunDueWatch(now, w), View(), rest - {name}, false)
    {
      ghost var here := View();
      PassAt(start, RunDueWatch(now, w), here, rest, false, name);
      RunOneWatch(name, now, w(name));
      PassNext(start, RunDueWatch(now, w), here, View(), rest, false, name, true);
    }

    method RunOneWatch(name: string, now: nat, o: Outcome)
      requires name in pending && pending[name].dueAt <= now
      modifies this
      ensures Only(old(View()), View(), name, DueWatchSlot(old(SlotOf(View(), name)), now, o))
      ensures DiskFollows(old(View()), View())
    {
      var p := pending[name];
      pending := pending - {name};
      if name !in processes || !processes[name].config.watch || !IsUp(processes[name]) {
        return;
      }
      ghost var dropped := View();
      var ok := RestartTriggered(name, processes[name].restartCount, o);
      ghost var restarted := View();
      if ok {
        watched := watched[name := p.fingerprint];
      }
      Save();
      forall m | m != name ensures SlotOf(View(), m) == old(SlotOf(View(), m)) {
        assert SlotOf(restarted, m) == SlotOf(dropped, m);
      }
    }

    method GiveUpExhausted(name: string)
      requires name in processes
      modifies this`processes
      ensures Only(old(View()), View(), name, Exhausted(old(SlotOf(View(), name))))
    {
      processes := processes[name := GaveUp(processes[name].(pid := None))];
    }

    method RunResourceLimitChecks(w: string -> Outcome)
      modifies this
      ensures Next(old(View()), CheckLimits(w), View())
    {
      ghost var start := View();
      var rest := set n | n in processes && LimitViolated(Slot(Some(processes[n]), None, None, None), w(n));
      var shouldSave := false;
      PassBegins(start, CheckLimits(w), rest, shouldSave);
      while rest != {}
        invariant Halfway(start, CheckLimits(w), View(), rest, shouldSave)
        decreases |rest|
      {
        var name :| name in rest;
        var saved := EnforceNext(name, w, start, rest, shouldSave);
        shouldSave := shouldSave || !saved;
        rest := rest - {name};
      }
      SaveAtTheEnd(shouldSave, start, CheckLimits(w));
    }

    method EnforceNext(name: string, w: string -> Outcome, ghost start: State, ghost rest: set<string>, ghost unsaved: bool)
      returns (saved: bool)
      requires name in rest && Halfway(start, CheckLimits(w), View(), rest, unsaved)
      modifies this
      ensures Halfway(start, CheckLimits(w), View(), rest - {name}, unsaved || !saved)
    {
      ghost var here := View();
      PassAt(start, CheckLimits(w), here, rest, unsaved, name);
      saved := EnforceLimit(name, w(name));
      PassNext(start, CheckLimits(w), here, View(), rest, unsaved, name, saved);
    }

    method EnforceLimit(name: string, o: Outcome) returns (saved: bool)
      requires LimitViolated(SlotOf(View(), name), o)
      modifies this
      ensures Only(old(View()), View(), name, LimitSlot(old(SlotOf(View(), name)), o))
      ensures saved ==> disk == Dump(nextId, processes)
    {
      if processes[name].restartCount >= processes[name].config.maxRestarts {
        GiveUpExhausted(name);
        return false;
      }
      saved := RestartTriggered(name, processes[name].restartCount, o);
      if saved {
        Save();
      }
    }

    method RunWatchChecks(w: string -> Outcome)
      modifies this
      ensures Next(old(View()), CheckWatches(w), View())
    {
      ghost var start := View();
      var rest := set n | n in processes && processes[n].config.watch && IsUp(processes[n]);
      PassBegins(start, CheckWatches(w), rest, false);
      while rest != {}
        invariant Halfway(start, CheckWatches(w), View(), rest, false)
        decreases |rest|
      {
        var name :| name in rest;
        CheckWatchNext(name, w, start, rest);
        rest := rest - {name};
      }
      PassEnds(start, CheckWatches(w), View());
    }

    method CheckWatchNext(name: string, w: string -> Outcome, ghost start: State, ghost rest: set<string>)
      requires name in rest && Halfway(start, CheckWatches(w), View(), rest, false)
      modifies this
      ensures Halfway(start, CheckWatches(w), View(), rest - {name}, false)
    {
      ghost var here := View();
      PassAt(start, CheckWatches(w), here, rest, false, name);
      CheckOneWatch(name, w(name));
      PassNext(start, CheckWatches(w), here, View(), rest, false, name, true);
    }

    method CheckOneWatch(name: string, o: Outcome)
      requires name in processes && processes[name].config.watch && IsUp(processes[name])
      modifies this
      ensures Only(old(View()), View(), name, WatchSlot(old(SlotOf(View(), name)), o))
      ensures DiskFollows(old(View()), View())
    {
      if o.scan.None? {
        return;
      }
      if name !in watched {
        watched := watched[name := o.scan.value];
        return;
      }
      if watched[name] == o.scan.value {
        pending := pending - {name};
        return;
      }
      if processes[name].config.watchDelaySecs > 0 {
        pending := pending[name := Pending(o.instant + processes[name].config.watchDelaySecs, o.scan.value)];
        return;
      }
      var ok := RestartTriggered(name, processes[name].restartCount, o);
      if ok {
        watched := watched[name := o.scan.value];
      }
      pending := pending - {name};
      Save();
    }

    method RunHealthChecks(now: nat, w: string -> Outcome)
      modifies this
      ensures Next(old(View()), CheckHealth(now, w), View())
    {
      ghost var start := View();
      var rest := set n | n in processes && HealthDue(Slot(Some(processes[n]), None, None, None), now);
      var shouldSave := false;
      PassBegins(start, CheckHealth(now, w), rest, shouldSave);
      while rest != {}
        invariant Halfway(start, CheckHealth(now, w), View(), rest, shouldSave)
        decreases |rest|
      {
        var name :| name in rest;
        CheckHealthNext(name, now, w, start, rest, shouldSave);
        shouldSave := true;
        rest := rest - {name};
      }
      SaveAtTheEnd(shouldSave, start, CheckHealth(now, w));
    }

    method CheckHealthNext(name: string, now: nat, w: string -> Outcome, ghost start: State, ghost rest: set<string>, ghost unsaved: bool)
      requires name in rest && Halfway(start, CheckHealth(now, w), View(), rest, unsaved)
      modifies this
      ensures Halfway(start, CheckHealth(now, w), View(), rest - {name}, true)
    {
      ghost var here := View();
      PassAt(start, CheckHealth(now, w), here, rest, unsaved, name);
      CheckOneHealth(name, now, w(name));
      PassNext(start, CheckHealth(now, w), here, View(), rest, unsaved, name, false);
    }

    method CheckOneHealth(name: string, now: nat, o: Outcome)
      requires name in processes && HealthDue(SlotOf(View(), name), now)
      modifies this
      ensures Only(old(View()), View(), name, HealthSlot(old(SlotOf(View(), name)), now, o))
    {
      var snapshot := processes[name];
      processes := processes[name := Checked(snapshot, now, o)];
      if Unhealthy(snapshot, o) {
        if snapshot.restartCount >= snapshot.config.maxRestarts {
          GiveUpExhausted(name);
        } else {
          var _ := RestartTriggered(name, snapshot.restartCount, o);
        }
      }
    }

    /** One maintenance tick: the six tasks one after the other. */
    method RunPeriodicTasks(now: seq<nat>, w: seq<string -> Outcome>) returns (ghost states: seq<State>)
      requires |now| == 6 && |w| == 6
      modifies this
      ensures |states| == 7 && states[0] == old(View()) && states[6] == View()
      ensures Next(states[0], RunScheduled(now[0], w[0]), states[1])
      ensures Next(states[1], RunCron(now[1], w[1]), states[2])
      ensures Next(states[2], RunDueWatch(now[2], w[2]), states[3])
      ensures Next(states[3], CheckLimits(w[3]), states[4])
      ensures Next(states[4], CheckWatches(w[4]), states[5])
      ensures Next(states[5], CheckHealth(now[5], w[5]), states[6])
    {
      ghost var s0 := View();
      RunScheduledRestarts(now[0], w[0]);
      ghost var s1 := View();
      RunCronRestarts(now[1], w[1]);
      ghost var s2 := View();
      RunDueWatchRestarts(now[2], w[2]);
      ghost var s3 := View();
      RunResourceLimitChecks(w[3]);
      ghost var s4 := View();
      RunWatchChecks(w[4]);
      ghost var s5 := View();
      RunHealthChecks(now[5], w[5]);
      states := [s0, s1, s2, s3, s4, s5, View()];
    }

    // -------------------------------------------------------------------
    // The wake-up deadline
    // -------------------------------------------------------------------

    /** The earliest moment anything is due: a scheduled restart, a debounced watch
        restart, or a cron restart that is not in the past. */
    method NextScheduledRestartAt(epoch: nat, instant: nat) returns (r: Option<nat>)
      ensures forall n :: n in scheduled ==> r.Some? && r.value <= scheduled[n]
      ensures forall n :: n in pending ==> r.Some? && r.value <= pending[n].dueAt
      ensures forall n :: n in processes && CronAt(processes[n], epoch, instant).Some? ==>
                            r.Some? && r.value <= CronAt(processes[n], epoch, instant).value
      ensures r.Some? ==>
                || (exists n :: n in scheduled && scheduled[n] == r.value)
                || (exists n :: n in pending && pending[n].dueAt == r.value)
                || (exists n :: n in processes && CronAt(processes[n], epoch, instant) == r)
    {
      var restart := EarliestScheduled();
      var watch := EarliestPending();
      var cron := EarliestCron(epoch, instant);
      r := Earlier(Earlier(restart, watch), cron);
    }

    method EarliestScheduled() returns (r: Option<nat>)
      ensures forall n :: n in scheduled ==> r.Some? && r.value <= scheduled[n]
      ensures r.Some? ==> exists n :: n in scheduled && scheduled[n] == r.value
    {
      r := None;
      var rest := scheduled.Keys;
      while rest != {}
        invariant rest <= scheduled.Keys
        invariant forall n :: n in scheduled && n !in rest ==> r.Some? && r.value <= scheduled[n]
        invariant r.Some? ==> exists n :: n in scheduled && scheduled[n] == r.value
        decreases |rest|
      {
        var n :| n in rest;
        r := Earlier(r, Some(scheduled[n]));
        rest := rest - {n};
      }
    }

    method EarliestPending() returns (r: Option<nat>)
      ensures forall n :: n in pending ==> r.Some? && r.value <= pending[n].dueAt
      ensures r.Some? ==> exists n :: n in pending && pending[n].dueAt == r.value
    {
      r := None;
      var rest := pending.Keys;
      while rest != {}
        invariant rest <= pending.Keys
        invariant forall n :: n in pending && n !in rest ==> r.Some? && r.value <= pending[n].dueAt
        invariant r.Some? ==> exists n :: n in pending && pending[n].dueAt == r.value
        decreases |rest|
      {
        var n :| n in rest;
        r := Earlier(r, Some(pending[n].dueAt));
        rest := rest - {n};
      }
    }

    method EarliestCron(epoch: nat, instant: nat) returns (r: Option<nat>)
      ensures forall n :: n in processes && CronAt(processes[n], epoch, instant).Some? ==>
                            r.Some? && r.value <= CronAt(processes[n], epoch, instant).value
      ensures r.Some? ==> exists n :: n in processes && CronAt(processes[n], epoch, instant) == r
    {
      r := None;
      var rest := processes.Keys;
      while rest != {}
        invariant rest <= processes.Keys
        invariant forall n :: n in processes && n !in rest && CronAt(processes[n], epoch, instant).Some? ==>
                                r.Some? && r.value <= CronAt(processes[n], epoch, instant).value
        invariant r.Some? ==> exists n :: n in processes && CronAt(processes[n], epoch, instant) == r
        decreases |rest|
      {
        var n :| n in rest;
        r := Earlier(r, CronAt(processes[n], epoch, instant));
        rest := rest - {n};
      }
    }
  }

  /** What recovery makes of a record that should run. */
  function RespawnSlot(x: Slot, o: Outcome): Slot {
    if x.proc.None? then x
    else if o.spawned.Some? then Attached(Launched(x.proc.value, o.spawned.value, o.epoch), o)
    else x.(proc := Some(x.proc.value.(status := Errored)))
  }

  /** The processes `done` were restarted in this order; all succeeded, except the
      last when the pass failed. */
  ghost predicate Attempted(s: State, order: seq<string>, done: set<string>, w: string -> Outcome, ok: bool) {
    if order == [] then done == {} && ok
    else
      var last := order[|order| - 1];
      && last in done && ok == RestartOk(SlotOf(s, last), w(last))
      && Attempted(s, order[..|order| - 1], done - {last}, w, true)
  }

  /** Exactly the processes `done` went through a restart. */
  ghost predicate RestartedExactly(s: State, s': State, done: set<string>, w: string -> Outcome) {
    && (forall n :: n in done ==> SlotOf(s', n) == RestartSlot(SlotOf(s, n), true, w(n)))
    && (forall n :: n !in done ==> SlotOf(s', n) == SlotOf(s, n))
  }

  lemma RestartedOneMore(s: State, s1: State, s2: State, done: set<string>, w: string -> Outcome, name: string)
    requires RestartedExactly(s, s1, done, w) && name !in done
    requires Only(s1, s2, name, RestartSlot(SlotOf(s1, name), true, w(name)))
    ensures RestartedExactly(s, s2, done + {name}, w)
    ensures SlotOf(s1, name) == SlotOf(s, name)
  {
  }

  /** `restart all` has yet to restart the processes `names`. */
  ghost predicate RestartsHalfway(s: State, s': State, order: seq<string>, names: set<string>, w: string -> Outcome,
                                  ok: bool) {
    && names <= s.processes.Keys && (forall j :: 0 <= j < |order| ==> order[j] in s.processes)
    && Attempted(s, order, s.processes.Keys - names, w, ok)
    && RestartedExactly(s, s', s.processes.Keys - names, w)
    && s'.nextId == s.nextId && DiskFollows(s, s')
  }

  lemma RestartsBegin(s: State, w: string -> Outcome)
    ensures RestartsHalfway(s, s, [], s.processes.Keys, w, true)
  {
    assert s.processes.Keys - s.processes.Keys == {};
  }

  lemma RestartsAt(s: State, s': State, order: seq<string>, names: set<string>, w: string -> Outcome, name: string)
    requires RestartsHalfway(s, s', order, names, w, true) && name in names
    ensures name in s'.processes && SlotOf(s', name) == SlotOf(s, name)
  {
    assert SlotOf(s', name).proc.Some?;
  }

  lemma RestartsNext(s: State, s1: State, s2: State, order: seq<string>, names: set<string>, w: string -> Outcome,
                     name: string, ok: bool)
    requires RestartsHalfway(s, s1, order, names, w, true) && name in names
    requires Only(s1, s2, name, RestartSlot(SlotOf(s1, name), true, w(name))) && DiskFollows(s1, s2)
    requires ok == RestartOk(SlotOf(s1, name), w(name))
    ensures RestartsHalfway(s, s2, order + [name], names - {name}, w, ok)
  {
    HandledNext(s.processes.Keys, names, name);
    RestartedOneMore(s, s1, s2, s.processes.Keys - names, w, name);
    Attempt(s, order, s.processes.Keys - names, w, ok, name);
  }

  lemma Attempt(s: State, order: seq<string>, done: set<string>, w: string -> Outcome, ok: bool, name: string)
    requires Attempted(s, order, done, w, true) && name !in done && ok == RestartOk(SlotOf(s, name), w(name))
    ensures Attempted(s, order + [name], done + {name}, w, ok)
  {
    assert (order + [name])[..|order|] == order && done + {name} - {name} == done;
  }

  lemma {:induction false} ReachedIsAttempted(s: State, order: seq<string>, done: set<string>, w: string -> Outcome,
                                              ok: bool, n: string)
    requires Attempted(s, order, done, w, ok)
    ensures ReachedBy(s, order, w, n) <==> n in done
    ensures ok ==> forall j :: 0 <= j < |order| ==> RestartOk(SlotOf(s, order[j]), w(order[j]))
  {
    if order != [] {
      var front, last := order[..|order| - 1], order[|order| - 1];
      ReachedIsAttempted(s, front, done - {last}, w, true, n);
      assert forall j :: 0 <= j < |front| ==> front[j] == order[j];
      if n == last {
        assert order[|front|] == n;
      } else if ReachedBy(s, front, w, n) {
        var k :| 0 <= k < |front| && front[k] == n &&
                 forall j :: 0 <= j < k ==> RestartOk(SlotOf(s, front[j]), w(front[j]));
        assert order[k] == n;
      }
    }
  }

  lemma AllAttemptsOk(s: State, order: seq<string>, done: set<string>, w: string -> Outcome)
    requires Attempted(s, order, done, w, true)
    ensures forall n :: n in done ==> RestartOk(SlotOf(s, n), w(n))
  {
    forall n | n in done ensures RestartOk(SlotOf(s, n), w(n)) {
      ReachedIsAttempted(s, order, done, w, true, n);
      var k :| 0 <= k < |order| && order[k] == n;
    }
  }

  lemma OrderIsComplete(s: State, order: seq<string>, done: set<string>, w: string -> Outcome, ok: bool)
    requires Attempted(s, order, done, w, ok) && (ok ==> s.processes.Keys <= done)
    requires forall k :: 0 <= k < |order| ==> order[k] in s.processes
    ensures RunsToFirstFailure(s, order, w)
  {
    if ok {
      forall n | n in s.processes ensures n in order {
        ReachedIsAttempted(s, order, done, w, ok, n);
      }
    }
  }

  function Earlier(r: Option<nat>, t: Option<nat>): Option<nat> {
    if t.None? || (r.Some? && r.value <= t.value) then r else t
  }

  /** When the next cron restart is due on the monotonic clock, unless it is past. */
  function CronAt(p: Proc, epoch: nat, instant: nat): Option<nat> {
    if p.nextCronRestart.Some? && p.nextCronRestart.value >= epoch
    then Some(instant + p.nextCronRestart.value - epoch) else None
  }

  const DISABLED_RESTART_SLEEP_SECS: nat := 86400

  /** When the daemon loop wakes up. */
  function RestartSleepDeadline(next: Option<nat>, now: nat): nat {
    if next.Some? then next.value else now + DISABLED_RESTART_SLEEP_SECS
  }
}
