/** The daemon loop around the process manager: the read snapshot that answers
    queries, and the wake-up deadline (src/daemon.rs). */
module Daemon {
  import opened Prelude
  import opened Domain
  import Text
  import opened Lifecycle
  import opened LifecycleInvariant
  import opened ProcessManagement
  import Fingerprint
  import FingerprintTheorems

  // ---------------------------------------------------------------------
  // Answers to queries
  // ---------------------------------------------------------------------

  /** A record as it is sent to clients: without environment and webhook secret,
      with the fingerprint of its full settings. */
  datatype Sent = Sent(process: Proc, fingerprint: string)

  function WithoutSecrets(p: Proc): Proc {
    p.(config := p.config.(env := map[],
                           pullSecretHash := if p.config.pullSecretHash.Some? then Some("<redacted>") else None))
  }

  ghost function Redacted(p: Proc): Sent {
    Sent(WithoutSecrets(p), Fingerprint.Payload(p.config))
  }

  ghost function RedactedAll(l: seq<Proc>): seq<Sent> {
    if l == [] then [] else RedactedAll(l[..|l| - 1]) + [Redacted(l[|l| - 1])]
  }

  datatype Request =
    | Ping
    | List
    | Status(target: string)
    | LogsFor(target: string)
    | StartRequested(request: StartRequest, outcome: Outcome)
    | StopRequested(target: string, outcome: Outcome)
    | RestartRequested(target: string, outcome: Outcome, answers: string -> Outcome)
    | ReloadRequested(target: string, outcome: Outcome)
    | DeleteRequested(target: string)
    | PullRequested(service: Option<string>, answers: string -> Outcome)

  predicate IsQuery(r: Request) {
    r.Ping? || r.List? || r.Status? || r.LogsFor?
  }

  datatype Response = Response(ok: bool, processes: seq<Sent>, process: Option<Sent>, logs: Option<Logs>)

  const PONG := Response(true, [], None, None)
  const NOT_FOUND := Response(false, [], None, None)

  /** Records are filed under their names, and their ids are unique. */
  ghost predicate WellFiled(procs: map<string, Proc>) {
    && (forall n :: n in procs ==> procs[n].name == n)
    && (forall m, n :: m in procs && n in procs && procs[m].id == procs[n].id ==> m == n)
  }

  lemma InvIsWellFiled(s: State)
    requires Inv(s)
    ensures WellFiled(s.processes)
  {
    forall n | n in s.processes ensures s.processes[n].name == n {
      assert SlotOk(n, SlotOf(s, n));
    }
  }

  /** What a target refers to. */
  ghost function Find(procs: map<string, Proc>, target: string): Option<Proc> {
    if n :| Resolves(procs, target, n) && n in procs then Some(procs[n]) else None
  }

  /** Even the registration that finds the id counter at its end gets an id of its own:
      the next one would not. */
  lemma StartIsWellFiled(s: State, e: Event, s': State)
    requires Inv(s) && Next(s, e, s') && e.Start?
    ensures WellFiled(s'.processes)
  {
    forall n | n in s'.processes
      ensures s'.processes[n].name == n
      ensures n in s.processes ==> s'.processes[n].id == s.processes[n].id
      ensures n !in s.processes ==> Names(s.processes, e.request, n) && s'.processes[n].id == s.nextId
    {
      assert SlotOk(n, SlotOf(s, n));
      assert SlotOf(s', n) == Effect(s, e, n);
      EffectId(s, e, n);
    }
    forall m, n | m in s'.processes && n in s'.processes && s'.processes[m].id == s'.processes[n].id
      ensures m == n
    {
      if m !in s.processes && n !in s.processes {
        StartedNameIsUnique(s, e.request, m, n);
      }
    }
  }

  ghost predicate IsFirst(procs: map<string, Proc>, names: set<string>, n: string)
    requires names <= procs.Keys
  {
    n in names && forall m :: m in names && m != n ==> procs[n].id < procs[m].id
  }

  lemma {:induction false} FirstExists(procs: map<string, Proc>, names: set<string>)
    requires WellFiled(procs) && names <= procs.Keys && names != {}
    ensures exists n :: IsFirst(procs, names, n)
    decreases |names|
  {
    var k :| k in names;
    if names == {k} {
      assert IsFirst(procs, names, k);
    } else {
      FirstExists(procs, names - {k});
      var n :| IsFirst(procs, names - {k}, n);
      assert IsFirst(procs, names, if procs[n].id < procs[k].id then n else k);
    }
  }

  ghost function First(procs: map<string, Proc>, names: set<string>): (n: string)
    requires WellFiled(procs) && names <= procs.Keys && names != {}
    ensures IsFirst(procs, names, n)
  {
    FirstExists(procs, names);
    var n :| IsFirst(procs, names, n);
    n
  }

  /** The named records in the order of their ids. */
  ghost function Ordered(procs: map<string, Proc>, names: set<string>): (l: seq<Proc>)
    requires WellFiled(procs) && names <= procs.Keys
    decreases |names|
  {
    if names == {} then []
    else
      var n := First(procs, names);
      [procs[n]] + Ordered(procs, names - {n})
  }

  /** All records in the order of their ids. */
  ghost function ListById(procs: map<string, Proc>): seq<Proc>
    requires WellFiled(procs)
  {
    Ordered(procs, procs.Keys)
  }

  lemma {:induction false} OrderedHolds(procs: map<string, Proc>, names: set<string>)
    requires WellFiled(procs) && names <= procs.Keys
    ensures forall p :: p in Ordered(procs, names) <==> p.name in names && procs[p.name] == p
    decreases |names|
  {
    if names != {} {
      OrderedHolds(procs, names - {First(procs, names)});
    }
  }

  lemma {:induction false} OrderedAscends(procs: map<string, Proc>, names: set<string>)
    requires WellFiled(procs) && names <= procs.Keys
    ensures forall i, j :: 0 <= i < j < |Ordered(procs, names)| ==> Ordered(procs, names)[i].id < Ordered(procs, names)[j].id
    decreases |names|
  {
    if names != {} {
      var n := First(procs, names);
      var rest := Ordered(procs, names - {n});
      OrderedAscends(procs, names - {n});
      OrderedHolds(procs, names - {n});
      forall j | 0 <= j < |rest| ensures procs[n].id < rest[j].id {
        assert rest[j] in rest;
      }
    }
  }

  /** What the manager answers to a query. */
  ghost function Answer(s: State, r: Request): Response
    requires Inv(s) && IsQuery(r)
  {
    InvIsWellFiled(s);
    match r
    case Ping => PONG
    case List => Response(true, RedactedAll(ListById(s.processes)), None, None)
    case Status(target) =>
      var found := Find(s.processes, target);
      if found.Some? then Response(true, [], Some(Redacted(found.value)), None) else NOT_FOUND
    case LogsFor(target) =>
      var found := Find(s.processes, target);
      if found.Some? then Response(true, [], None, Some(found.value.logs)) else NOT_FOUND
  }

  /** What a client can learn from a sent record: nothing of the environment or of the
      webhook secret, except that the fingerprint still tells clean settings apart. */
  lemma RedactionHides(p: Proc, q: Proc)
    ensures Redacted(p).process.config.env == map[]
    ensures Redacted(p).process.config.pullSecretHash in {None, Some("<redacted>")}
    ensures q == p.(config := p.config.(env := q.config.env, pullSecretHash := q.config.pullSecretHash))
            && (p.config.pullSecretHash.Some? <==> q.config.pullSecretHash.Some?) ==>
              Redacted(p).process == Redacted(q).process
    ensures FingerprintTheorems.Clean(p.config) && FingerprintTheorems.Clean(q.config) ==>
              (Redacted(p).fingerprint == Redacted(q).fingerprint
               <==> FingerprintTheorems.SameSettings(p.config, q.config))
  {
    if FingerprintTheorems.Clean(p.config) && FingerprintTheorems.Clean(q.config) {
      FingerprintTheorems.PayloadIsFaithful(p.config, q.config);
    }
  }

  method Redact(p: Proc) returns (r: Sent)
    ensures r == Redacted(p)
  {
    var fingerprint := Fingerprint.BuildPayload(p.config);
    r := Sent(WithoutSecrets(p), fingerprint);
  }

  method RedactAll(l: seq<Proc>) returns (r: seq<Sent>)
    ensures r == RedactedAll(l)
  {
    r := [];
    for k := 0 to |l|
      invariant r == RedactedAll(l[..k])
    {
      assert l[..k + 1][..k] == l[..k];
      var sent := Redact(l[k]);
      r := r + [sent];
    }
    assert l[..|l|] == l;
  }

  method FirstOf(procs: map<string, Proc>, names: set<string>) returns (n: string)
    requires WellFiled(procs) && names <= procs.Keys && names != {}
    ensures n == First(procs, names)
  {
    n :| n in names;
    var rest := names - {n};
    while rest != {}
      invariant rest <= names && n in names && n !in rest
      invariant forall m :: m in names && m !in rest && m != n ==> procs[n].id < procs[m].id
      decreases |rest|
    {
      var m :| m in rest;
      if procs[m].id < procs[n].id {
        n := m;
      }
      rest := rest - {m};
    }
  }

  method ListProcesses(procs: map<string, Proc>) returns (l: seq<Proc>)
    requires WellFiled(procs)
    ensures l == ListById(procs)
    ensures forall i, j :: 0 <= i < j < |l| ==> l[i].id < l[j].id
    ensures forall p :: p in l <==> p.name in procs && procs[p.name] == p
  {
    l := Selected(procs);
    OrderedHolds(procs, procs.Keys);
    OrderedAscends(procs, procs.Keys);
  }

  lemma OrderedStep(procs: map<string, Proc>, rest: set<string>, l: seq<Proc>, all: seq<Proc>, n: string)
    requires WellFiled(procs) && rest <= procs.Keys && rest != {} && n == First(procs, rest)
    requires l + Ordered(procs, rest) == all
    ensures (l + [procs[n]]) + Ordered(procs, rest - {n}) == all
  {
    assert Ordered(procs, rest) == [procs[n]] + Ordered(procs, rest - {n});
  }

  method Selected(procs: map<string, Proc>) returns (l: seq<Proc>)
    requires WellFiled(procs)
    ensures l == ListById(procs)
  {
    l := [];
    var rest := procs.Keys;
    while rest != {}
      invariant rest <= procs.Keys && l + Ordered(procs, rest) == ListById(procs)
      decreases |rest|
    {
      var n := FirstOf(procs, rest);
      OrderedStep(procs, rest, l, ListById(procs), n);
      l := l + [procs[n]];
      rest := rest - {n};
    }
  }

  /** A lookup in the snapshot: the name first, the id second. */
  method FindInSnapshot(l: seq<Proc>, target: string, ghost procs: map<string, Proc>) returns (r: Option<Proc>)
    requires WellFiled(procs) && l == ListById(procs)
    ensures r == Find(procs, target)
  {
    OrderedHolds(procs, procs.Keys);
    for k := 0 to |l|
      invariant forall i :: 0 <= i < k ==> l[i].name != target
    {
      if l[k].name == target {
        assert l[k] in l;
        return Some(l[k]);
      }
    }
    assert forall n :: n in procs ==> procs[n] in l;
    assert target !in procs;
    var id := Text.ParseUnsigned(target, U64_MAX);
    if id.None? {
      return None;
    }
    r := FindById(l, id.value);
    if r.Some? {
      assert r.value in l;
      assert Resolves(procs, target, r.value.name);
    }
  }

  method FindById(l: seq<Proc>, id: nat) returns (r: Option<Proc>)
    ensures r.Some? ==> r.value in l && r.value.id == id
    ensures r.None? ==> forall p :: p in l ==> p.id != id
  {
    for k := 0 to |l|
      invariant forall i :: 0 <= i < k ==> l[i].id != id
    {
      if l[k].id == id {
        return Some(l[k]);
      }
    }
    return None;
  }

  // ---------------------------------------------------------------------
  // The loop
  // ---------------------------------------------------------------------

  /** The step a request makes the manager take; `all` addresses every process. */
  ghost predicate Dispatches(r: Request, e: Event) {
    match r
    case StartRequested(request, o) => e == Start(request, o)
    case StopRequested(target, o) => if target == "all" then e == StopAll else e == Stop(target, o)
    case RestartRequested(target, o, w) =>
      if target == "all" then e.RestartAll? && e.answers == w else e == Restart(target, o)
    case ReloadRequested(target, o) => e == Reload(target, o)
    case DeleteRequested(target) => if target == "all" then e == DeleteAll else e == Delete(target)
    case PullRequested(service, w) => e == Pull(service, w)
    case _ => false
  }

  /** When a request succeeds. */
  ghost predicate Answers(s: State, r: Request, ok: bool) {
    match r
    case StartRequested(request, o) => ok <==> NameAccepted(s.processes, request) && o.spawned.Some?
    case StopRequested(target, o) =>
      ok <==> target == "all" || exists n :: Resolves(s.processes, target, n) && StopOk(SlotOf(s, n), o)
    case RestartRequested(target, o, w) =>
      ok <==> if target == "all" then forall n :: n in s.processes ==> RestartOk(SlotOf(s, n), w(n))
              else exists n :: Resolves(s.processes, target, n) && RestartOk(SlotOf(s, n), o)
    case ReloadRequested(target, o) =>
      ok <==> exists n :: Resolves(s.processes, target, n) && ReloadOk(SlotOf(s, n), o)
    case DeleteRequested(target) => ok <==> target == "all" || exists n :: Resolves(s.processes, target, n)
    case PullRequested(service, w) => ok <==> PullsOk(s, service, w)
    case _ => true
  }

  lemma NothingDueIsLeft(s: State, now: nat, w: string -> Outcome, s': State)
    requires Next(s, RunScheduled(now, w), s')
    ensures forall n :: n in s'.scheduled ==> s'.scheduled[n] > now
  {
    forall n | n in s'.scheduled ensures s'.scheduled[n] > now {
      assert SlotOf(s', n) == Effect(s, RunScheduled(now, w), n);
    }
  }

  /** A wake-up left alone whatever was not scheduled, due watch restarts included. */
  lemma UnscheduledStays(s: State, now: nat, w: string -> Outcome, s': State)
    requires Next(s, RunScheduled(now, w), s')
    ensures forall n :: n in s.pending && n !in s.scheduled ==> n in s'.pending && s'.pending[n] == s.pending[n]
  {
    forall n | n in s.pending && n !in s.scheduled ensures n in s'.pending && s'.pending[n] == s.pending[n] {
      assert SlotOf(s', n) == Effect(s, RunScheduled(now, w), n);
    }
  }

  // ---------------------------------------------------------------------
  // The wake-up timer
  // ---------------------------------------------------------------------

  /** A cron restart lies ahead, or is due in the current second. */
  ghost predicate CronAwaits(s: State, epoch: nat, n: string) {
    && n in s.processes && s.processes[n].nextCronRestart.Some?
    && s.processes[n].nextCronRestart.value >= epoch
  }

  /** The wall-clock time of a cron restart on the monotonic clock. */
  ghost function CronInstant(s: State, epoch: nat, instant: nat, n: string): nat
    requires CronAwaits(s, epoch, n)
  {
    instant + (s.processes[n].nextCronRestart.value - epoch)
  }

  ghost predicate NoLaterThanAll(s: State, epoch: nat, instant: nat, at: nat) {
    && (forall n :: n in s.scheduled ==> at <= s.scheduled[n])
    && (forall n :: n in s.pending ==> at <= s.pending[n].dueAt)
    && (forall n :: CronAwaits(s, epoch, n) ==> at <= CronInstant(s, epoch, instant, n))
  }

  ghost predicate IsAwaited(s: State, epoch: nat, instant: nat, at: nat) {
    || (exists n :: n in s.scheduled && s.scheduled[n] == at)
    || (exists n :: n in s.pending && s.pending[n].dueAt == at)
    || (exists n :: CronAwaits(s, epoch, n) && CronInstant(s, epoch, instant, n) == at)
  }

  ghost predicate NothingAwaited(s: State, epoch: nat) {
    s.scheduled == map[] && s.pending == map[] && forall n :: !CronAwaits(s, epoch, n)
  }

  /** When the timer is set to fire: at the earliest moment anything is due, or in a day. */
  ghost predicate IsDeadline(s: State, epoch: nat, instant: nat, at: nat) {
    && NoLaterThanAll(s, epoch, instant, at)
    && (IsAwaited(s, epoch, instant, at)
        || (NothingAwaited(s, epoch) && at == instant + 24 * 60 * 60))
  }

  lemma IsDeadlineOf(s: State, epoch: nat, instant: nat, next: Option<nat>)
    requires forall n :: n in s.scheduled ==> next.Some? && next.value <= s.scheduled[n]
    requires forall n :: n in s.pending ==> next.Some? && next.value <= s.pending[n].dueAt
    requires forall n :: n in s.processes && CronAt(s.processes[n], epoch, instant).Some? ==>
                           next.Some? && next.value <= CronAt(s.processes[n], epoch, instant).value
    requires next.Some? ==>
               || (exists n :: n in s.scheduled && s.scheduled[n] == next.value)
               || (exists n :: n in s.pending && s.pending[n].dueAt == next.value)
               || (exists n :: n in s.processes && CronAt(s.processes[n], epoch, instant) == next)
    ensures IsDeadline(s, epoch, instant, RestartSleepDeadline(next, instant))
  {
    forall n | CronAwaits(s, epoch, n)
      ensures CronAt(s.processes[n], epoch, instant) == Some(CronInstant(s, epoch, instant, n))
    {
    }
    if next.Some? {
      if n :| n in s.processes && CronAt(s.processes[n], epoch, instant) == next {
        assert CronAwaits(s, epoch, n);
      }
    }
  }

  ghost predicate RestartDue(s: State, instant: nat) {
    exists n :: n in s.scheduled && s.scheduled[n] <= instant
  }

  /** A debounced watch restart is due, or a cron restart in the current second. */
  ghost predicate WatchOrCronDue(s: State, epoch: nat, instant: nat) {
    || (exists n :: n in s.pending && s.pending[n].dueAt <= instant)
    || (exists n :: n in s.processes && s.processes[n].nextCronRestart == Some(epoch))
  }

  /** The timer is set to fire at once exactly when something is due already. */
  lemma FiresAtOnceIff(s: State, epoch: nat, instant: nat, at: nat)
    requires IsDeadline(s, epoch, instant, at)
    ensures at <= instant <==> RestartDue(s, instant) || WatchOrCronDue(s, epoch, instant)
  {
    if n :| n in s.processes && s.processes[n].nextCronRestart == Some(epoch) {
      assert CronAwaits(s, epoch, n);
    }
  }

  class DaemonLoop {
    const manager: ProcessManager
    var snapshot: seq<Proc>
    var wakeAt: nat

    /** Between steps the manager is consistent, the snapshot lists its current
        records, and the loop wakes up no later than anything that is due. */
    ghost predicate Settled()
      reads this, manager
    {
      Inv(manager.View()) && Published()
    }

    ghost predicate Published()
      reads this, manager
    {
      && WellFiled(manager.processes) && snapshot == ListById(manager.processes)
      && (forall n :: n in manager.scheduled ==> wakeAt <= manager.scheduled[n])
      && (forall n :: n in manager.pending ==> wakeAt <= manager.pending[n].dueAt)
    }

    constructor (m: ProcessManager, epoch: nat, instant: nat)
      requires Inv(m.View())
      ensures manager == m && Settled() && IsDeadline(m.View(), epoch, instant, wakeAt)
    {
      manager := m;
      snapshot, wakeAt := [], 0;
      new;
      InvIsWellFiled(m.View());
      Settle(epoch, instant);
    }

    /** Publishes the snapshot and resets the wake-up timer. */
    method Settle(epoch: nat, instant: nat)
      requires WellFiled(manager.processes)
      modifies this
      ensures Published() && IsDeadline(manager.View(), epoch, instant, wakeAt)
    {
      snapshot := ListProcesses(manager.processes);
      var next := manager.NextScheduledRestartAt(epoch, instant);
      wakeAt := RestartSleepDeadline(next, instant);
      IsDeadlineOf(manager.View(), epoch, instant, next);
    }

    method OnExit(e: ExitEvent, o: Outcome, epoch: nat, instant: nat)
      requires Settled()
      modifies this, manager
      ensures Next(old(manager.View()), Exit(e, o), manager.View()) && Settled()
      ensures IsDeadline(manager.View(), epoch, instant, wakeAt)
      ensures e.name in old(manager.processes) && old(manager.processes)[e.name].pid !in {None, Some(e.pid)} ==>
                manager.View() == old(manager.View())
    {
      ghost var before := manager.View();
      manager.HandleExitEvent(e, o);
      InvKept(before, Exit(e, o), manager.View());
      InvIsWellFiled(manager.View());
      Settle(epoch, instant);
    }

    /** The timer fired: nothing due by now is left scheduled afterwards. Watch restarts
        wait for the maintenance tick: while one is due, or a cron restart in the current
        second, the timer is set to fire again at once. */
    method OnWakeUp(now: nat, w: string -> Outcome, epoch: nat, instant: nat)
      requires Settled()
      modifies this, manager
      ensures Next(old(manager.View()), RunScheduled(now, w), manager.View()) && Settled()
      ensures IsDeadline(manager.View(), epoch, instant, wakeAt)
      ensures forall n :: n in manager.scheduled ==> manager.scheduled[n] > now
      ensures forall n :: n in old(manager.pending) && n !in old(manager.scheduled) ==>
                            n in manager.pending && manager.pending[n] == old(manager.pending[n])
      ensures instant <= now ==> (wakeAt <= instant <==> WatchOrCronDue(manager.View(), epoch, instant))
    {
      ghost var before := manager.View();
      manager.RunScheduledRestarts(now, w);
      InvKept(before, RunScheduled(now, w), manager.View());
      InvIsWellFiled(manager.View());
      NothingDueIsLeft(before, now, w, manager.View());
      UnscheduledStays(before, now, w, manager.View());
      Settle(epoch, instant);
      FiresAtOnceIff(manager.View(), epoch, instant, wakeAt);
    }

    /** The maintenance tick takes the six periodic steps in their order. */
    method OnMaintenance(now: seq<nat>, w: seq<string -> Outcome>, epoch: nat, instant: nat)
      returns (ghost states: seq<State>)
      requires Settled() && |now| == 6 && |w| == 6
      modifies this, manager
      ensures Settled() && IsDeadline(manager.View(), epoch, instant, wakeAt)
      ensures |states| == 7 && states[0] == old(manager.View()) && states[6] == manager.View()
      ensures Next(states[0], RunScheduled(now[0], w[0]), states[1])
      ensures Next(states[1], RunCron(now[1], w[1]), states[2])
      ensures Next(states[2], RunDueWatch(now[2], w[2]), states[3])
      ensures Next(states[3], CheckLimits(w[3]), states[4])
      ensures Next(states[4], CheckWatches(w[4]), states[5])
      ensures Next(states[5], CheckHealth(now[5], w[5]), states[6])
    {
      states := manager.RunPeriodicTasks(now, w);
      InvKept(states[0], RunScheduled(now[0], w[0]), states[1]);
      InvKept(states[1], RunCron(now[1], w[1]), states[2]);
      InvKept(states[2], RunDueWatch(now[2], w[2]), states[3]);
      InvKept(states[3], CheckLimits(w[3]), states[4]);
      InvKept(states[4], CheckWatches(w[4]), states[5]);
      InvKept(states[5], CheckHealth(now[5], w[5]), states[6]);
      InvIsWellFiled(states[6]);
      Settle(epoch, instant);
    }

    method OnShutdown(epoch: nat, instant: nat)
      requires Settled()
      modifies this, manager
      ensures Next(old(manager.View()), Shutdown, manager.View()) && Settled()
      ensures IsDeadline(manager.View(), epoch, instant, wakeAt)
      ensures forall n :: n in manager.processes ==>
                            manager.processes[n].pid.None? && manager.processes[n].desired == WantStopped
    {
      ghost var before := manager.View();
      manager.ShutdownAll();
      InvKept(before, Shutdown, manager.View());
      InvIsWellFiled(manager.View());
      forall n | n in manager.processes
        ensures manager.processes[n].pid.None? && manager.processes[n].desired == WantStopped
      {
        assert SlotOf(manager.View(), n) == Effect(before, Shutdown, n);
      }
      Settle(epoch, instant);
    }

    /** A request that changes something goes to the manager. The snapshot is published
        whatever happened; the invariant needs the id counter not to have run out. */
    method OnCommand(r: Request, epoch: nat, instant: nat) returns (ok: bool, ghost e: Event)
      requires Settled() && !IsQuery(r) && |manager.processes| < U64_MAX
      modifies this, manager
      ensures Dispatches(r, e) && Next(old(manager.View()), e, manager.View()) && Published()
      ensures old(CounterHasRoom(manager.View(), e)) ==> Settled()
      ensures IsDeadline(manager.View(), epoch, instant, wakeAt)
      ensures Answers(old(manager.View()), r, ok)
    {
      ghost var before := manager.View();
      ok, e := Dispatch(r);
      if CounterHasRoom(before, e) {
        InvKept(before, e, manager.View());
        InvIsWellFiled(manager.View());
      } else {
        StartIsWellFiled(before, e, manager.View());
      }
      Settle(epoch, instant);
    }

    /** Carries out one request. */
    method Dispatch(r: Request) returns (ok: bool, ghost e: Event)
      requires Inv(manager.View()) && !IsQuery(r) && |manager.processes| < U64_MAX
      modifies manager
      ensures Dispatches(r, e) && Next(old(manager.View()), e, manager.View())
      ensures Answers(old(manager.View()), r, ok)
    {
      match r
      case StartRequested(request, o) =>
        var result := manager.StartProcess(request, o);
        ok, e := result.Ok?, Start(request, o);
      case StopRequested(target, o) =>
        ok, e := DispatchStop(target, o);
      case RestartRequested(target, o, w) =>
        ok, e := DispatchRestart(target, o, w);
      case ReloadRequested(target, o) =>
        ok := manager.ReloadProcess(target, o);
        e := Reload(target, o);
      case DeleteRequested(target) =>
        ok, e := DispatchDelete(target);
      case PullRequested(service, w) =>
        var result := manager.PullProcesses(service, w);
        ok, e := result.Ok?, Pull(service, w);
    }

    method DispatchStop(target: string, o: Outcome) returns (ok: bool, ghost e: Event)
      requires Inv(manager.View())
      modifies manager
      ensures e == (if target == "all" then StopAll else Stop(target, o))
      ensures Next(old(manager.View()), e, manager.View())
      ensures Answers(old(manager.View()), StopRequested(target, o), ok)
    {
      if target == "all" {
        manager.StopAllProcesses();
        return true, StopAll;
      }
      var result := manager.StopProcess(target, o);
      return result.Ok?, Stop(target, o);
    }

    method DispatchRestart(target: string, o: Outcome, w: string -> Outcome) returns (ok: bool, ghost e: Event)
      requires Inv(manager.View())
      modifies manager
      ensures Dispatches(RestartRequested(target, o, w), e)
      ensures Next(old(manager.View()), e, manager.View())
      ensures Answers(old(manager.View()), RestartRequested(target, o, w), ok)
    {
      if target == "all" {
        ghost var order;
        ok, order := manager.RestartAllProcesses(w);
        return ok, RestartAll(order, w);
      }
      var result := manager.RestartProcess(target, o);
      return result.Ok?, Restart(target, o);
    }

    method DispatchDelete(target: string) returns (ok: bool, ghost e: Event)
      requires Inv(manager.View())
      modifies manager
      ensures e == (if target == "all" then DeleteAll else Delete(target))
      ensures Next(old(manager.View()), e, manager.View())
      ensures Answers(old(manager.View()), DeleteRequested(target), ok)
    {
      if target == "all" {
        manager.DeleteAllProcesses();
        return true, DeleteAll;
      }
      var result := manager.DeleteProcess(target);
      return result.Ok?, Delete(target);
    }

    // -------------------------------------------------------------------
    // Queries
    // -------------------------------------------------------------------

    /** The manager's own answer. */
    method ExecuteQuery(r: Request) returns (response: Response)
      requires Settled() && IsQuery(r)
      ensures response == Answer(manager.View(), r)
    {
      match r
      case Ping => response := PONG;
      case List =>
        var l := ListProcesses(manager.processes);
        var sent := RedactAll(l);
        response := Response(true, sent, None, None);
      case Status(target) =>
        var p := FindManaged(target);
        if p.None? {
          return NOT_FOUND;
        }
        var sent := Redact(p.value);
        response := Response(true, [], Some(sent), None);
      case LogsFor(target) =>
        var p := FindManaged(target);
        response := if p.None? then NOT_FOUND else Response(true, [], None, Some(p.value.logs));
    }

    method FindManaged(target: string) returns (p: Option<Proc>)
      requires Settled()
      ensures p == Find(manager.processes, target)
    {
      var name := manager.ResolveTarget(target);
      return if name.None? then None else Some(manager.processes[name.value]);
    }

    /** The snapshot's answer, if it has one. */
    method ExecuteSnapshotRequest(r: Request) returns (response: Option<Response>)
      requires Settled()
      ensures response.Some? ==> IsQuery(r) && response.value == Answer(manager.View(), r)
      ensures r.Ping? || r.List? ==> response.Some?
    {
      match r
      case Ping => response := Some(PONG);
      case List =>
        var sent := RedactAll(snapshot);
        response := Some(Response(true, sent, None, None));
      case Status(target) =>
        var p := FindInSnapshot(snapshot, target, manager.processes);
        if p.None? {
          return None;
        }
        var sent := Redact(p.value);
        response := Some(Response(true, [], Some(sent), None));
      case LogsFor(target) =>
        var p := FindInSnapshot(snapshot, target, manager.processes);
        response := if p.None? then None else Some(Response(true, [], None, Some(p.value.logs)));
      case _ => response := None;
    }

    /** A client's query, served from the snapshot with the manager as fallback:
        always what the manager would have answered. */
    method HandleQuery(r: Request) returns (response: Response)
      requires Settled() && IsQuery(r)
      ensures response == Answer(manager.View(), r)
    {
      var fast := ExecuteSnapshotRequest(r);
      if fast.Some? {
        return fast.value;
      }
      response := ExecuteQuery(r);
    }
  }
}
