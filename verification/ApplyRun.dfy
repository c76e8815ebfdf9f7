/** Running `apply` against the daemon (`run` in src/commands/apply.rs): the requests,
    the report, and what a whole run comes to. */
module ApplyRun {
  import opened Domain
  import opened Lifecycle
  import LifecycleInvariant
  import opened Daemon
  import opened Apply
  import opened ApplyTheorems
  import opened ApplyExecution
  import opened ApplyOutcome

  // ---------------------------------------------------------------------
  // Requests
  // ---------------------------------------------------------------------

  /** Sends one request. The id counter must have room for a process. */
  method Send(daemon: DaemonLoop, r: Request, epoch: nat, instant: nat) returns (ok: bool)
    requires daemon.Settled() && !IsQuery(r) && daemon.manager.nextId < U64_MAX
    modifies daemon, daemon.manager
    ensures daemon.Settled() && Handles(old(daemon.manager.View()), r, ok, daemon.manager.View())
    ensures daemon.manager.nextId <= old(daemon.manager.nextId) + if r.StartRequested? then 1 else 0
  {
    ghost var e;
    LifecycleInvariant.RecordsFitTheCounter(daemon.manager.View());
    ok, e := daemon.OnCommand(r, epoch, instant);
  }

  method SendRecreate(daemon: DaemonLoop, r: StartRequest, o: Outcome, instant: nat) returns (ok: bool)
    requires daemon.Settled() && r.name.Some? && daemon.manager.nextId < U64_MAX
    modifies daemon, daemon.manager
    ensures daemon.Settled() && Recreates(old(daemon.manager.View()), r, o, ok, daemon.manager.View())
    ensures daemon.manager.nextId <= old(daemon.manager.nextId) + 1
  {
    ok := Send(daemon, DeleteRequested(r.name.value), o.epoch, instant);
    if !ok {
      return;
    }
    ghost var between := daemon.manager.View();
    ok := Send(daemon, StartRequested(r, o), o.epoch, instant);
    assert Handles(old(daemon.manager.View()), DeleteRequested(r.name.value), true, between);
  }

  method Perform(daemon: DaemonLoop, a: Action, o: Outcome, w: string -> Outcome, instant: nat)
    returns (ok: bool)
    requires daemon.Settled() && daemon.manager.nextId < U64_MAX
    requires a.StartApp? || a.Recreate? ==> a.spec.name.Some?
    modifies daemon, daemon.manager
    ensures daemon.Settled() && Acts(old(daemon.manager.View()), a, o, w, ok, daemon.manager.View())
    ensures daemon.manager.nextId <= old(daemon.manager.nextId) + if a.DeleteApp? then 0 else 1
  {
    match a
    case StartApp(r) =>
      ok := Send(daemon, StartRequested(r, o), o.epoch, instant);
    case RestartApp(n) =>
      ok := Send(daemon, RestartRequested(n, o, w), o.epoch, instant);
    case Recreate(r) =>
      ok := SendRecreate(daemon, r, o, instant);
    case DeleteApp(n) =>
      ok := Send(daemon, DeleteRequested(n), o.epoch, instant);
    case Noop =>
      ok := true;
  }

  // ---------------------------------------------------------------------
  // The report
  // ---------------------------------------------------------------------

  datatype Report = Report(
    created: nat,
    restarted: nat,
    updated: nat,
    skipped: nat,
    pruned: nat,
    failures: nat)
  {
    function Total(): nat {
      created + restarted + updated + skipped + pruned + failures
    }
  }

  function Counted(report: Report, a: Action, ok: bool): (r: Report)
    ensures r.Total() == report.Total() + 1
    ensures r.failures == if ok then report.failures else report.failures + 1
  {
    if !ok then report.(failures := report.failures + 1)
    else
      match a
      case StartApp(_) => report.(created := report.created + 1)
      case RestartApp(_) => report.(restarted := report.restarted + 1)
      case Recreate(_) => report.(updated := report.updated + 1)
      case DeleteApp(_) => report.(pruned := report.pruned + 1)
      case Noop => report.(skipped := report.skipped + 1)
  }

  datatype Kind = Starts | Restarts | Recreations | Deletes | Leaves

  function KindOf(a: Action): Kind {
    match a
    case StartApp(_) => Starts
    case RestartApp(_) => Restarts
    case Recreate(_) => Recreations
    case DeleteApp(_) => Deletes
    case Noop => Leaves
  }

  /** How many actions of a kind succeeded. */
  function Succeeded(plan: seq<Action>, oks: seq<bool>, kind: Kind): nat
    requires |plan| == |oks|
  {
    if plan == [] then 0
    else
      var k := |plan| - 1;
      Succeeded(plan[..k], oks[..k], kind) + if oks[k] && KindOf(plan[k]) == kind then 1 else 0
  }

  /** The report counts every action once, under what became of it. */
  ghost predicate Accounts(report: Report, plan: seq<Action>, oks: seq<bool>)
    requires |plan| == |oks|
  {
    && report.created == Succeeded(plan, oks, Starts)
    && report.restarted == Succeeded(plan, oks, Restarts)
    && report.updated == Succeeded(plan, oks, Recreations)
    && report.pruned == Succeeded(plan, oks, Deletes)
    && report.skipped == Succeeded(plan, oks, Leaves)
    && report.Total() == |plan|
    && (report.failures == 0 <==> AllOk(oks))
  }

  lemma AccountsNext(report: Report, plan: seq<Action>, oks: seq<bool>, a: Action, ok: bool)
    requires |plan| == |oks| && Accounts(report, plan, oks)
    ensures Accounts(Counted(report, a, ok), plan + [a], oks + [ok])
  {
    var plan', oks' := plan + [a], oks + [ok];
    assert plan'[..|plan|] == plan && oks'[..|oks|] == oks && oks'[|oks|] == ok;
    assert forall i :: 0 <= i < |oks| ==> oks'[i] == oks[i];
  }

  lemma {:induction false} SkippedAtMost(plan: seq<Action>, oks: seq<bool>, m: nat)
    requires |plan| == |oks| && forall i :: m <= i < |plan| ==> plan[i].DeleteApp?
    ensures Succeeded(plan, oks, Leaves) <= m
    ensures (exists i :: 0 <= i < |plan| && i < m && plan[i] != Noop) ==> Succeeded(plan, oks, Leaves) < m
  {
    if plan != [] {
      var k := |plan| - 1;
      SkippedAtMost(plan[..k], oks[..k], if k < m then k else m);
      if i :| 0 <= i < |plan| && i < m && plan[i] != Noop && i < k {
        assert plan[..k][i] != Noop;
      }
    }
  }

  lemma {:induction false} AllSkipped(plan: seq<Action>, oks: seq<bool>)
    requires |plan| == |oks| && NothingToDo(plan) && AllOk(oks)
    ensures Succeeded(plan, oks, Leaves) == |plan|
  {
    if plan != [] {
      AllSkipped(plan[..|plan| - 1], oks[..|oks| - 1]);
    }
  }

  // ---------------------------------------------------------------------
  // The whole plan
  // ---------------------------------------------------------------------

  lemma ExecutionNext(states: seq<State>, plan: seq<Action>, oks: seq<bool>, o: nat -> Outcome, w: string -> Outcome,
                      k: nat, ok: bool, s': State)
    requires IsExecution(states, plan, oks, o, w, k) && k < |plan|
    requires Acts(states[k], plan[k], o(k), w, ok, s')
    ensures IsExecution(states + [s'], plan, oks + [ok], o, w, k + 1)
  {
    var states', oks' := states + [s'], oks + [ok];
    forall i | 0 <= i < k + 1 ensures Tries(states', plan, oks', o, w, i) {
      if i < k {
        assert Tries(states, plan, oks, o, w, i);
      }
    }
  }

  method CountNext(before: Report, plan: seq<Action>, k: nat, ok: bool, ghost oks: seq<bool>)
    returns (report: Report)
    requires k == |oks| < |plan| && Accounts(before, plan[..k], oks)
    ensures Accounts(report, plan[..k + 1], oks + [ok])
  {
    AccountsNext(before, plan[..k], oks, plan[k], ok);
    assert plan[..k + 1] == plan[..k] + [plan[k]];
    report := Counted(before, plan[k], ok);
  }

  /** Tries every action in turn, whatever the earlier ones came to. Only the first
      `m` actions may use up ids. */
  method RunPlan(daemon: DaemonLoop, plan: seq<Action>, ghost m: nat, o: nat -> Outcome, w: string -> Outcome,
                 instant: nat)
    returns (report: Report, ghost oks: seq<bool>, ghost states: seq<State>)
    requires daemon.Settled() && m <= |plan| && daemon.manager.nextId + m < U64_MAX
    requires forall i :: m <= i < |plan| ==> plan[i].DeleteApp?
    requires forall i :: 0 <= i < |plan| && (plan[i].StartApp? || plan[i].Recreate?) ==> plan[i].spec.name.Some?
    modifies daemon, daemon.manager
    ensures daemon.Settled() && daemon.manager.nextId <= old(daemon.manager.nextId) + m
    ensures IsRunOf(old(daemon.manager.View()), plan, states, oks, o, w, report, daemon.manager.View())
  {
    ghost var start := daemon.manager.View();
    report, oks, states := Report(0, 0, 0, 0, 0, 0), [], [start];
    for k := 0 to |plan|
      invariant daemon.Settled() && daemon.manager.nextId <= start.nextId + if k < m then k else m
      invariant IsExecution(states, plan, oks, o, w, k) && Accounts(report, plan[..k], oks)
      invariant states[0] == start && states[k] == daemon.manager.View()
    {
      var ok := Perform(daemon, plan[k], o(k), w, instant);
      ExecutionNext(states, plan, oks, o, w, k, ok, daemon.manager.View());
      report := CountNext(report, plan, k, ok, oks);
      oks, states := oks + [ok], states + [daemon.manager.View()];
    }
    assert plan[..|plan|] == plan;
  }

  method MakePlan(daemon: DaemonLoop, desired: seq<StartRequest>, prune: bool) returns (plan: seq<Action>)
    requires daemon.Settled() && Named(desired)
    ensures plan == Plan(Listed(daemon.manager.View()), desired, prune) && |desired| <= |plan|
    ensures forall i :: |desired| <= i < |plan| ==> plan[i].DeleteApp?
    ensures forall i :: 0 <= i < |plan| && (plan[i].StartApp? || plan[i].Recreate?) ==> plan[i].spec.name.Some?
  {
    var listing := daemon.HandleQuery(List);
    ListingIsListed(daemon.manager.View());
    plan := PlanApplyActions(listing.processes, desired, prune);
    PlanParts(daemon.manager.View(), desired, prune);
  }

  /** `report` is what a run from `s` to `s'` reports. */
  ghost predicate IsRunOf(s: State, plan: seq<Action>, states: seq<State>, oks: seq<bool>, o: nat -> Outcome,
                          w: string -> Outcome, report: Report, s': State)
  {
    && IsExecution(states, plan, oks, o, w, |plan|) && Accounts(report, plan, oks)
    && states[0] == s && states[|plan|] == s'
  }

  /** One run of `apply`: list, plan, carry out. An empty configuration changes
      nothing, not even with pruning. */
  method RunApply(daemon: DaemonLoop, desired: seq<StartRequest>, prune: bool, o: nat -> Outcome,
                  w: string -> Outcome, instant: nat)
    returns (report: Report, ghost oks: seq<bool>, ghost states: seq<State>)
    requires daemon.Settled() && Named(desired) && Distinct(desired)
    requires daemon.manager.nextId + |desired| < U64_MAX
    modifies daemon, daemon.manager
    ensures daemon.Settled() && daemon.manager.nextId <= old(daemon.manager.nextId) + |desired|
    ensures desired == [] ==> daemon.manager.View() == old(daemon.manager.View()) && report.Total() == 0
    ensures desired != [] ==>
              IsRunOf(old(daemon.manager.View()), Plan(Listed(old(daemon.manager.View())), desired, prune), states, oks,
                      o, w, report, daemon.manager.View())
    ensures desired != [] ==>
              ComesTo(old(daemon.manager.View()), desired, prune, report.failures == 0, w, daemon.manager.View())
    ensures desired != [] && Harmless(old(daemon.manager.View()), desired, prune) && Willing(o) ==>
              (report.failures == 0 <==> AllStartable(old(daemon.manager.View()), desired))
  {
    if desired == [] {
      return Report(0, 0, 0, 0, 0, 0), [], [daemon.manager.View()];
    }
    var plan := MakePlan(daemon, desired, prune);
    report, oks, states := RunPlan(daemon, plan, |desired|, o, w, instant);
    RunComesTo(states, desired, prune, plan, oks, o, w);
    if Harmless(states[0], desired, prune) {
      FlawlessIff(states, desired, prune, plan, oks, o, w);
    }
  }

  // ---------------------------------------------------------------------
  // Applying twice
  // ---------------------------------------------------------------------

  lemma IdleRun(states: seq<State>, plan: seq<Action>, oks: seq<bool>, o: nat -> Outcome, w: string -> Outcome,
                report: Report)
    requires IsExecution(states, plan, oks, o, w, |plan|) && Accounts(report, plan, oks) && NothingToDo(plan)
    ensures states[|plan|] == states[0] && report == Report(0, 0, 0, |plan|, 0, 0)
  {
    IdleExecution(states, plan, oks, o, w, |plan|);
    AllSkipped(plan, oks);
  }

  /** Only a run that prunes a process called `all`, with all others, does not count. */
  ghost predicate Converges(s: State, desired: seq<StartRequest>, prune: bool)
    requires Named(desired)
  {
    Harmless(s, desired, prune) || "all" in NamesOf(desired)
  }

  /** What a second run comes to. After a flawless first one it changes nothing and skips
      every process exactly when all of them settle, also when the first run restarted a
      process called `all`. After a run that pruned `all` it has to start every process
      anew. */
  ghost predicate RunsAgain(s: State, desired: seq<StartRequest>, prune: bool, first: Report, s': State, second: Report,
                            s'': State)
    requires Named(desired)
  {
    if Converges(s, desired, prune) then
      first.failures == 0 ==>
        && (second == Report(0, 0, 0, |desired|, 0, 0) <==> AllSettle(s, desired))
        && (AllSettle(s, desired) ==> s'' == s')
    else s'.processes == map[] && second.created + second.failures == |desired|
  }

  /** Applying the same configuration again. */
  method ApplyTwice(daemon: DaemonLoop, desired: seq<StartRequest>, prune: bool, o: nat -> Outcome,
                    w: string -> Outcome, o': nat -> Outcome, w': string -> Outcome, instant: nat)
    returns (first: Report, second: Report, ghost between: State)
    requires daemon.Settled() && Named(desired) && Distinct(desired) && desired != []
    requires daemon.manager.nextId + 2 * |desired| < U64_MAX
    modifies daemon, daemon.manager
    ensures daemon.Settled()
    ensures first.failures == 0 && Harmless(old(daemon.manager.View()), desired, prune) ==>
              Applied(old(daemon.manager.View()), desired, prune, between)
    ensures RunsAgain(old(daemon.manager.View()), desired, prune, first, between, second, daemon.manager.View())
  {
    ghost var start := daemon.manager.View();
    ghost var oks, states;
    first, oks, states := RunApply(daemon, desired, prune, o, w, instant);
    between := daemon.manager.View();
    second, oks, states := RunApply(daemon, desired, prune, o', w', instant);
    RanTwice(start, desired, prune, w, first, between, states, oks, o', w', second, daemon.manager.View());
  }

  lemma RanTwice(s: State, desired: seq<StartRequest>, prune: bool, w: string -> Outcome, first: Report, s': State,
                 states: seq<State>, oks: seq<bool>, o': nat -> Outcome, w': string -> Outcome, second: Report,
                 s'': State)
    requires Named(desired) && Distinct(desired) && ComesTo(s, desired, prune, first.failures == 0, w, s')
    requires IsRunOf(s', Plan(Listed(s'), desired, prune), states, oks, o', w', second, s'')
    ensures RunsAgain(s, desired, prune, first, s', second, s'')
  {
    if !Converges(s, desired, prune) {
      StartsAnew(s', desired, prune, states, oks, o', w', second, s'');
    } else if first.failures == 0 {
      FlawlessConverges(s, desired, prune, w, s');
      SecondRun(s, desired, prune, s', states, oks, o', w', second, s'');
    }
  }

  lemma SecondRun(s: State, desired: seq<StartRequest>, prune: bool, s': State, states: seq<State>, oks: seq<bool>,
                  o: nat -> Outcome, w: string -> Outcome, report: Report, s'': State)
    requires Named(desired) && Distinct(desired) && Converged(s, desired, prune, s')
    requires IsRunOf(s', Plan(Listed(s'), desired, prune), states, oks, o, w, report, s'')
    ensures report == Report(0, 0, 0, |desired|, 0, 0) <==> AllSettle(s, desired)
    ensures AllSettle(s, desired) ==> s'' == s'
  {
    var plan := Plan(Listed(s'), desired, prune);
    ConvergesIff(s, desired, prune, s');
    PlanParts(s', desired, prune);
    if NothingToDo(plan) {
      IdleRun(states, plan, oks, o, w, report);
      DeletionsRemain(plan, |desired|);
    } else {
      SomethingLeft(plan, oks, |desired|, report);
    }
  }

  /** On a daemon without processes every action is a start. */
  lemma StartsAnew(s: State, desired: seq<StartRequest>, prune: bool, states: seq<State>, oks: seq<bool>,
                   o: nat -> Outcome, w: string -> Outcome, report: Report, s': State)
    requires Named(desired) && s.processes == map[]
    requires IsRunOf(s, Plan(Listed(s), desired, prune), states, oks, o, w, report, s')
    ensures report.created + report.failures == |desired|
  {
    var plan := Plan(Listed(s), desired, prune);
    PlanShape(s, desired, prune);
    PlanIsShaped(s, desired, prune);
    assert Stale(s, desired, prune) == [];
    assert plan == DesiredActions(Listed(s), desired);
    OnlyStarts(plan, oks);
  }

  lemma {:induction false} OnlyStarts(plan: seq<Action>, oks: seq<bool>)
    requires |plan| == |oks| && forall i :: 0 <= i < |plan| ==> plan[i].StartApp?
    ensures Succeeded(plan, oks, Restarts) == Succeeded(plan, oks, Recreations) == 0
    ensures Succeeded(plan, oks, Deletes) == Succeeded(plan, oks, Leaves) == 0
  {
    if plan != [] {
      OnlyStarts(plan[..|plan| - 1], oks[..|oks| - 1]);
    }
  }

  lemma DeletionsRemain(plan: seq<Action>, m: nat)
    requires forall i :: m <= i < |plan| ==> plan[i].DeleteApp?
    ensures |plan| > m ==> !NothingToDo(plan)
  {
    if |plan| > m {
      assert plan[m] != Noop;
    }
  }

  lemma SomethingLeft(plan: seq<Action>, oks: seq<bool>, m: nat, report: Report)
    requires |oks| == |plan| >= m && Accounts(report, plan, oks) && !NothingToDo(plan)
    requires forall i :: m <= i < |plan| ==> plan[i].DeleteApp?
    ensures report != Report(0, 0, 0, m, 0, 0)
  {
    SkippedAtMost(plan, oks, m);
    var i :| 0 <= i < |plan| && plan[i] != Noop;
    if i >= m {
      assert report.Total() > m;
    }
  }
}
