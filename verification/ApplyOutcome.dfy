/** What a whole run of `apply` comes to: when its plan is sound, what is achieved when
    nothing fails, when applying again finds nothing to do, and what goes wrong with a
    process called `all`. */
module ApplyOutcome {
  import opened Prelude
  import opened Lifecycle
  import LifecycleInvariant
  import opened Apply
  import opened ApplyTheorems
  import opened ApplyExecution
  import Fingerprint
  import AutoName

  // ---------------------------------------------------------------------
  // The shape of a plan
  // ---------------------------------------------------------------------

  /** The names a plan prunes, in the order it prunes them. */
  ghost function Stale(s: State, desired: seq<StartRequest>, prune: bool): (stale: seq<string>)
    requires Named(desired)
    ensures forall n :: n in stale <==> prune && n in s.processes && n !in NamesOf(desired)
    ensures forall i, j :: 0 <= i < j < |stale| ==> stale[i] != stale[j]
  {
    var names := s.processes.Keys - NamesOf(desired);
    SortedKeysAll(names);
    if prune then Fingerprint.SortedKeys(names) else []
  }

  lemma PlanShape(s: State, desired: seq<StartRequest>, prune: bool)
    requires Named(desired)
    ensures Plan(Listed(s), desired, prune) == DesiredActions(Listed(s), desired) + Deletions(Stale(s, desired, prune))
  {
    assert Listed(s).Keys == s.processes.Keys;
    assert Deletions([]) == [];
  }

  /** `first` holds one action for each desired process, and starts exactly the missing
      ones; `stale` are other processes. */
  ghost predicate Shaped(s: State, desired: seq<StartRequest>, first: seq<Action>, stale: seq<string>)
    requires Named(desired)
  {
    && |first| == |desired|
    && (forall i :: 0 <= i < |first| ==> ForSpec(s, desired[i], first[i]))
    && (forall n :: n in stale ==> n in s.processes && n !in NamesOf(desired))
    && (forall i, j :: 0 <= i < j < |stale| ==> stale[i] != stale[j])
  }

  ghost predicate ForSpec(s: State, r: StartRequest, a: Action)
    requires r.name.Some?
  {
    && a in {StartApp(r), Recreate(r), RestartApp(r.name.value), Noop}
    && (a == StartApp(r) <==> r.name.value !in s.processes)
  }

  lemma ActionIsForSpec(s: State, r: StartRequest)
    requires r.name.Some?
    ensures ForSpec(s, r, ActionFor(Listed(s), r))
  {
    assert Listed(s).Keys == s.processes.Keys;
  }

  lemma PlanIsShaped(s: State, desired: seq<StartRequest>, prune: bool)
    requires Named(desired)
    ensures Shaped(s, desired, DesiredActions(Listed(s), desired), Stale(s, desired, prune))
  {
    forall i | 0 <= i < |desired| ensures ForSpec(s, desired[i], ActionFor(Listed(s), desired[i])) {
      ActionIsForSpec(s, desired[i]);
    }
  }

  lemma ShapedParts(s: State, desired: seq<StartRequest>, first: seq<Action>, stale: seq<string>)
    requires Named(desired) && Shaped(s, desired, first, stale)
    ensures var plan := first + Deletions(stale);
            && |desired| <= |plan|
            && (forall i :: |desired| <= i < |plan| ==> plan[i] == DeleteApp(stale[i - |desired|]))
            && (forall i :: 0 <= i < |plan| && (plan[i].StartApp? || plan[i].Recreate?) ==> plan[i].spec.name.Some?)
            && (forall i :: 0 <= i < |plan| && !plan[i].DeleteApp? && TargetOf(plan[i]).Some? ==>
                              TargetOf(plan[i]).value in NamesOf(desired))
  {
    var plan := first + Deletions(stale);
    forall i | 0 <= i < |plan| && !plan[i].DeleteApp?
      ensures plan[i].StartApp? || plan[i].Recreate? ==> plan[i].spec.name.Some?
      ensures TargetOf(plan[i]).Some? ==> TargetOf(plan[i]).value in NamesOf(desired)
    {
      assert i < |first| && ForSpec(s, desired[i], first[i]);
    }
  }

  lemma PlanParts(s: State, desired: seq<StartRequest>, prune: bool)
    requires Named(desired)
    ensures var plan := Plan(Listed(s), desired, prune);
            && |desired| <= |plan|
            && (forall i :: |desired| <= i < |plan| ==> plan[i].DeleteApp?)
            && (forall i :: 0 <= i < |plan| && (plan[i].StartApp? || plan[i].Recreate?) ==> plan[i].spec.name.Some?)
  {
    PlanShape(s, desired, prune);
    PlanIsShaped(s, desired, prune);
    ShapedParts(s, desired, DesiredActions(Listed(s), desired), Stale(s, desired, prune));
  }

  // ---------------------------------------------------------------------
  // Sound plans
  // ---------------------------------------------------------------------

  lemma ShapedTargetsDiffer(s: State, desired: seq<StartRequest>, first: seq<Action>, stale: seq<string>)
    requires Named(desired) && Distinct(desired) && Shaped(s, desired, first, stale)
    ensures TargetsDiffer(first + Deletions(stale))
  {
    var plan := first + Deletions(stale);
    forall i, j | 0 <= i < j < |plan| && TargetOf(plan[i]).Some? ensures TargetOf(plan[i]) != TargetOf(plan[j]) {
      if i < |first| {
        assert ForSpec(s, desired[i], first[i]);
        if j < |first| {
          assert ForSpec(s, desired[j], first[j]);
        } else {
          assert plan[j] == DeleteApp(stale[j - |first|]) && desired[i].name.value in NamesOf(desired);
        }
      } else {
        assert plan[i] == DeleteApp(stale[i - |first|]) && plan[j] == DeleteApp(stale[j - |first|]);
      }
    }
  }

  /** Only a process called `all` can be missed, and only if something is to be done
      with it. */
  lemma AddressedIff(s: State, r: StartRequest, a: Action)
    requires r.name.Some? && ForSpec(s, r, a)
    ensures Addresses(s, a) <==> (r.name.value == "all" && "all" in s.processes ==> a == Noop)
  {
  }

  lemma ShapedIsSoundIff(s: State, desired: seq<StartRequest>, first: seq<Action>, stale: seq<string>)
    requires Named(desired) && Distinct(desired) && Shaped(s, desired, first, stale)
    ensures Sound(s, first + Deletions(stale))
            <==> (forall i :: 0 <= i < |first| ==> Addresses(s, first[i])) && "all" !in stale
  {
    var plan := first + Deletions(stale);
    ShapedTargetsDiffer(s, desired, first, stale);
    assert forall i :: 0 <= i < |first| ==> plan[i] == first[i];
    assert forall i :: 0 <= i < |stale| ==> plan[|first| + i] == DeleteApp(stale[i]);
    assert forall i :: |first| <= i < |plan| ==> plan[i] == DeleteApp(stale[i - |first|]);
  }

  /** The plan for this state does not touch a process called `all`: there is none, or it
      is desired and runs as desired, or it is neither desired nor pruned. */
  ghost predicate Harmless(s: State, desired: seq<StartRequest>, prune: bool)
    requires Named(desired)
  {
    "all" in s.processes ==> if "all" in NamesOf(desired) then AllIsSatisfied(s, desired) else !prune
  }

  ghost predicate AllIsSatisfied(s: State, desired: seq<StartRequest>)
    requires Named(desired)
  {
    forall i :: 0 <= i < |desired| && desired[i].name.value == "all" ==> Satisfied(s, desired[i])
  }

  lemma FirstAddressedIff(s: State, desired: seq<StartRequest>)
    requires Named(desired)
    ensures (forall i :: 0 <= i < |desired| ==> Addresses(s, DesiredActions(Listed(s), desired)[i]))
            <==> ("all" in s.processes ==> AllIsSatisfied(s, desired))
  {
    var first := DesiredActions(Listed(s), desired);
    forall i | 0 <= i < |desired|
      ensures Addresses(s, first[i]) <==>
              (desired[i].name.value == "all" && "all" in s.processes ==> Satisfied(s, desired[i]))
    {
      ActionIsForSpec(s, desired[i]);
      AddressedIff(s, desired[i], first[i]);
      NoopIff(s, desired[i]);
    }
  }

  /** A plan addresses single processes, each once, exactly when it is harmless. */
  lemma PlanIsSoundIff(s: State, desired: seq<StartRequest>, prune: bool)
    requires Named(desired) && Distinct(desired)
    ensures Sound(s, Plan(Listed(s), desired, prune)) <==> Harmless(s, desired, prune)
  {
    PlanShape(s, desired, prune);
    PlanIsShaped(s, desired, prune);
    ShapedIsSoundIff(s, desired, DesiredActions(Listed(s), desired), Stale(s, desired, prune));
    FirstAddressedIff(s, desired);
    if "all" !in NamesOf(desired) {
      assert AllIsSatisfied(s, desired);
    }
  }

  // ---------------------------------------------------------------------
  // Harmless runs
  // ---------------------------------------------------------------------

  /** A desired process that comes to rest: the daemon already has its settings, or
      will store them as they are. */
  ghost predicate Settles(s: State, r: StartRequest)
    requires r.name.Some?
  {
    HasSettings(s, r) || StoredAsIs(r.config)
  }

  /** What applying without a failure comes to. */
  ghost predicate Applied(s: State, desired: seq<StartRequest>, prune: bool, s': State)
    requires Named(desired)
  {
    DesiredApplied(s, desired, s') && OthersApplied(s, desired, prune, s')
  }

  ghost predicate DesiredApplied(s: State, desired: seq<StartRequest>, s': State)
    requires Named(desired)
  {
    forall i :: 0 <= i < |desired| ==>
                  desired[i].name.value in s'.processes && (Satisfied(s', desired[i]) <==> Settles(s, desired[i]))
  }

  ghost predicate OthersApplied(s: State, desired: seq<StartRequest>, prune: bool, s': State)
    requires Named(desired)
  {
    forall n :: n !in NamesOf(desired) ==> SlotOf(s', n) == if prune then EMPTY else SlotOf(s, n)
  }

  ghost predicate BystandersKept(s: State, desired: seq<StartRequest>, s': State)
    requires Named(desired)
  {
    forall n :: n !in NamesOf(desired) ==> SlotOf(s', n) == SlotOf(s, n)
  }

  lemma AchievedIsSatisfied(s: State, r: StartRequest, s': State)
    requires r.name.Some? && Achieved(s, ActionFor(Listed(s), r), s')
    requires ActionFor(Listed(s), r) == Noop ==> SlotOf(s', r.name.value) == SlotOf(s, r.name.value)
    ensures r.name.value in s'.processes
    ensures Satisfied(s', r) <==> Settles(s, r)
  {
    var name := r.name.value;
    NoopIff(s, r);
    StoredFingerprintIff(r.config);
    if name in s.processes {
      PayloadIsNotEmpty(s.processes[name].config);
    }
    assert SlotOf(s', name).proc.Some?;
  }

  lemma UntargetedIf(s: State, desired: seq<StartRequest>, first: seq<Action>, stale: seq<string>, n: string)
    requires Named(desired) && Shaped(s, desired, first, stale) && n !in stale
    requires forall i :: 0 <= i < |first| && desired[i].name.value == n ==> first[i] == Noop
    ensures Untargeted(first + Deletions(stale), |first| + |stale|, n)
  {
    var plan := first + Deletions(stale);
    forall k | 0 <= k < |plan| ensures TargetOf(plan[k]) != Some(n) {
      if k < |first| {
        assert ForSpec(s, desired[k], first[k]);
      } else {
        assert plan[k] == DeleteApp(stale[k - |first|]);
      }
    }
  }

  lemma DesiredAchieved(s: State, desired: seq<StartRequest>, first: seq<Action>, stale: seq<string>, s': State, i: nat)
    requires Named(desired) && Distinct(desired) && i < |desired| && Shaped(s, desired, first, stale)
    requires Through(s, first + Deletions(stale), |first| + |stale|, s', true)
    ensures Achieved(s, first[i], s')
    ensures first[i] == Noop ==> SlotOf(s', desired[i].name.value) == SlotOf(s, desired[i].name.value)
  {
    assert (first + Deletions(stale))[i] == first[i];
    if first[i] == Noop {
      UntargetedIf(s, desired, first, stale, desired[i].name.value);
    }
  }

  lemma OthersAchieved(s: State, desired: seq<StartRequest>, first: seq<Action>, stale: seq<string>, s': State, n: string)
    requires Named(desired) && n !in NamesOf(desired) && Shaped(s, desired, first, stale)
    requires Through(s, first + Deletions(stale), |first| + |stale|, s', true)
    ensures SlotOf(s', n) == if n in stale then EMPTY else SlotOf(s, n)
  {
    if n in stale {
      var k :| 0 <= k < |stale| && stale[k] == n;
      assert (first + Deletions(stale))[|first| + k] == DeleteApp(n);
    } else {
      UntargetedIf(s, desired, first, stale, n);
    }
  }

  lemma FlawlessForDesired(s: State, desired: seq<StartRequest>, first: seq<Action>, stale: seq<string>, s': State)
    requires Named(desired) && Distinct(desired) && Shaped(s, desired, first, stale)
    requires first == DesiredActions(Listed(s), desired)
    requires Through(s, first + Deletions(stale), |first| + |stale|, s', true)
    ensures DesiredApplied(s, desired, s')
  {
    forall i | 0 <= i < |desired|
      ensures desired[i].name.value in s'.processes && (Satisfied(s', desired[i]) <==> Settles(s, desired[i]))
    {
      DesiredAchieved(s, desired, first, stale, s', i);
      AchievedIsSatisfied(s, desired[i], s');
    }
  }

  lemma FlawlessForOthers(s: State, desired: seq<StartRequest>, prune: bool, first: seq<Action>, stale: seq<string>,
                          s': State)
    requires Named(desired) && LifecycleInvariant.Inv(s) && Shaped(s, desired, first, stale)
    requires forall n :: n in stale <==> prune && n in s.processes && n !in NamesOf(desired)
    requires Through(s, first + Deletions(stale), |first| + |stale|, s', true)
    ensures OthersApplied(s, desired, prune, s')
  {
    forall n | n !in NamesOf(desired) ensures SlotOf(s', n) == if prune then EMPTY else SlotOf(s, n) {
      OthersAchieved(s, desired, first, stale, s', n);
      assert LifecycleInvariant.SlotOk(n, SlotOf(s, n));
    }
  }

  lemma FlawlessIsApplied(s: State, desired: seq<StartRequest>, prune: bool, plan: seq<Action>, s': State)
    requires Named(desired) && Distinct(desired) && LifecycleInvariant.Inv(s)
    requires plan == Plan(Listed(s), desired, prune) && Through(s, plan, |plan|, s', true)
    ensures Applied(s, desired, prune, s')
  {
    var first, stale := DesiredActions(Listed(s), desired), Stale(s, desired, prune);
    PlanShape(s, desired, prune);
    PlanIsShaped(s, desired, prune);
    FlawlessForDesired(s, desired, first, stale, s');
    FlawlessForOthers(s, desired, prune, first, stale, s');
  }

  lemma OthersUntouched(s: State, desired: seq<StartRequest>, first: seq<Action>, s': State, flawless: bool)
    requires Named(desired) && Shaped(s, desired, first, []) && Through(s, first, |first|, s', flawless)
    ensures BystandersKept(s, desired, s')
  {
    assert first + Deletions([]) == first;
    forall n | n !in NamesOf(desired) ensures SlotOf(s', n) == SlotOf(s, n) {
      UntargetedIf(s, desired, first, [], n);
    }
  }

  lemma UnprunedPlan(s: State, desired: seq<StartRequest>)
    requires Named(desired)
    ensures Plan(Listed(s), desired, false) == DesiredActions(Listed(s), desired)
    ensures Shaped(s, desired, DesiredActions(Listed(s), desired), [])
  {
    PlanIsShaped(s, desired, false);
    assert Stale(s, desired, false) == [];
  }

  /** A harmless run without a failure applies the configuration; without pruning it
      leaves all other processes alone, whatever fails. */
  lemma HarmlessRun(states: seq<State>, desired: seq<StartRequest>, prune: bool, plan: seq<Action>, oks: seq<bool>,
                    o: nat -> Outcome, w: string -> Outcome)
    requires Named(desired) && Distinct(desired) && IsExecution(states, plan, oks, o, w, |plan|)
    requires plan == Plan(Listed(states[0]), desired, prune)
    requires LifecycleInvariant.Inv(states[0]) && Harmless(states[0], desired, prune)
    ensures AllOk(oks) ==> Applied(states[0], desired, prune, states[|plan|])
    ensures !prune ==> BystandersKept(states[0], desired, states[|plan|])
  {
    PlanIsSoundIff(states[0], desired, prune);
    SoundExecution(states, plan, oks, o, w, |plan|);
    if AllOk(oks) {
      FlawlessIsApplied(states[0], desired, prune, plan, states[|plan|]);
    }
    if !prune {
      UnprunedPlan(states[0], desired);
      OthersUntouched(states[0], desired, plan, states[|plan|], AllOk(oks));
    }
  }

  // ---------------------------------------------------------------------
  // When nothing fails
  // ---------------------------------------------------------------------

  ghost predicate AllWork(s: State, plan: seq<Action>, o: nat -> Outcome) {
    forall i :: 0 <= i < |plan| ==> Works(s, plan[i], o(i))
  }

  /** The environment never fails: processes terminate, and children come up. */
  ghost predicate Willing(o: nat -> Outcome) {
    forall i :: o(i).terminated && o(i).spawned.Some?
  }

  /** The daemon would take every request that is to be started or recreated. */
  ghost predicate AllStartable(s: State, desired: seq<StartRequest>)
    requires Named(desired)
  {
    forall i :: 0 <= i < |desired| && !HasSettings(s, desired[i]) ==> Startable(desired[i])
  }

  lemma WorksWhenWilling(s: State, r: StartRequest, o: Outcome)
    requires r.name.Some? && o.terminated && o.spawned.Some?
    ensures Works(s, ActionFor(Listed(s), r), o) <==> HasSettings(s, r) || Startable(r)
  {
    NoopIff(s, r);
    if r.name.value in s.processes {
      PayloadIsNotEmpty(s.processes[r.name.value].config);
    }
  }

  lemma AllWorkIff(s: State, desired: seq<StartRequest>, first: seq<Action>, stale: seq<string>, o: nat -> Outcome)
    requires Named(desired) && first == DesiredActions(Listed(s), desired) && Willing(o)
    ensures AllWork(s, first + Deletions(stale), o) <==> AllStartable(s, desired)
  {
    var plan := first + Deletions(stale);
    forall i | 0 <= i < |desired|
      ensures Works(s, plan[i], o(i)) <==> HasSettings(s, desired[i]) || Startable(desired[i])
    {
      WorksWhenWilling(s, desired[i], o(i));
    }
    assert forall i :: |first| <= i < |plan| ==> plan[i] == DeleteApp(stale[i - |first|]);
  }

  /** A harmless run is flawless exactly when each of its actions works on its own; if the
      environment never fails, exactly when every process to be started or recreated has a
      command line and a name the daemon accepts. */
  lemma FlawlessIff(states: seq<State>, desired: seq<StartRequest>, prune: bool, plan: seq<Action>, oks: seq<bool>,
                    o: nat -> Outcome, w: string -> Outcome)
    requires Named(desired) && Distinct(desired) && IsExecution(states, plan, oks, o, w, |plan|)
    requires plan == Plan(Listed(states[0]), desired, prune) && Harmless(states[0], desired, prune)
    ensures AllOk(oks) <==> AllWork(states[0], plan, o)
    ensures Willing(o) ==> (AllOk(oks) <==> AllStartable(states[0], desired))
  {
    PlanIsSoundIff(states[0], desired, prune);
    forall k | 0 <= k < |plan| ensures oks[k] <==> Works(states[0], plan[k], o(k)) {
      SoundSucceedsIff(states, plan, oks, o, w, k);
    }
    if Willing(o) {
      PlanShape(states[0], desired, prune);
      AllWorkIff(states[0], desired, DesiredActions(Listed(states[0]), desired), Stale(states[0], desired, prune), o);
    }
  }

  // ---------------------------------------------------------------------
  // Convergence
  // ---------------------------------------------------------------------

  ghost predicate AllSettle(s: State, desired: seq<StartRequest>)
    requires Named(desired)
  {
    forall i :: 0 <= i < |desired| ==> Settles(s, desired[i])
  }

  lemma AppliedKeys(s: State, desired: seq<StartRequest>, s': State)
    requires Named(desired) && Applied(s, desired, true, s')
    ensures s'.processes.Keys == NamesOf(desired)
  {
    forall n | n !in NamesOf(desired) ensures n !in s'.processes {
      assert SlotOf(s', n) == EMPTY;
    }
    forall n | n in NamesOf(desired) ensures n in s'.processes {
      var i :| 0 <= i < |desired| && desired[i].name.value == n;
    }
  }

  lemma AppliedSatisfied(s: State, desired: seq<StartRequest>, s': State)
    requires Named(desired) && DesiredApplied(s, desired, s')
    ensures AllSatisfied(s', desired) <==> AllSettle(s, desired)
  {
  }

  /** Desired processes are as desired, and with pruning there are no others. What became
      of others without pruning makes no difference to the next plan. */
  ghost predicate Converged(s: State, desired: seq<StartRequest>, prune: bool, s': State)
    requires Named(desired)
  {
    DesiredApplied(s, desired, s') && (prune ==> OthersApplied(s, desired, true, s'))
  }

  /** After a flawless run, planning again finds nothing to do exactly when every
      desired process settles; in particular always when the daemon stores all settings
      as they are. */
  lemma ConvergesIff(s: State, desired: seq<StartRequest>, prune: bool, s': State)
    requires Named(desired) && Distinct(desired) && Converged(s, desired, prune, s')
    ensures NothingToDo(Plan(Listed(s'), desired, prune)) <==> AllSettle(s, desired)
    ensures prune ==> s'.processes.Keys == NamesOf(desired)
  {
    NothingToDoIff(s', desired, prune);
    AppliedSatisfied(s, desired, s');
    if prune {
      AppliedKeys(s, desired, s');
    }
  }

  // ---------------------------------------------------------------------
  // Harmful runs
  // ---------------------------------------------------------------------

  /** What comes of a plan that deletes, recreates or restarts a process called `all`. */
  ghost predicate Harmed(s: State, desired: seq<StartRequest>, prune: bool, flawless: bool, w: string -> Outcome,
                         s': State)
    requires Named(desired)
  {
    if "all" !in NamesOf(desired) then s'.processes == map[]
    else if !AllHasSettings(s, desired) then !flawless && s'.processes.Keys <= NamesOf(desired)
    else flawless ==>
           && DesiredApplied(s, desired, s')
           && (if prune then OthersApplied(s, desired, prune, s') else BystandersRestarted(s, desired, w, s'))
  }

  ghost predicate AllHasSettings(s: State, desired: seq<StartRequest>)
    requires Named(desired)
  {
    forall i :: 0 <= i < |desired| && desired[i].name.value == "all" ==> HasSettings(s, desired[i])
  }

  lemma PrunedAll(states: seq<State>, plan: seq<Action>, first: seq<Action>, stale: seq<string>, oks: seq<bool>,
                  o: nat -> Outcome, w: string -> Outcome)
    requires IsExecution(states, plan, oks, o, w, |plan|) && "all" in stale && plan == first + Deletions(stale)
    ensures states[|plan|].processes == map[]
  {
    var k :| 0 <= k < |stale| && stale[k] == "all";
    assert plan[|first| + k] == DeleteApp("all");
    DeletingAll(states, plan, oks, o, w, |first| + k);
  }

  lemma AllAt(desired: seq<StartRequest>) returns (i: nat)
    requires Named(desired) && "all" in NamesOf(desired)
    ensures i < |desired| && desired[i].name == Some("all")
  {
    i :| 0 <= i < |desired| && desired[i].name.value == "all";
  }

  /** The action for a managed, unsatisfied process. */
  lemma UnsatisfiedAction(s: State, r: StartRequest)
    requires r.name.Some? && r.name.value in s.processes && !Satisfied(s, r)
    ensures ActionFor(Listed(s), r) == if HasSettings(s, r) then RestartApp(r.name.value) else Recreate(r)
  {
    PayloadIsNotEmpty(s.processes[r.name.value].config);
  }

  lemma RecreatedAll(states: seq<State>, desired: seq<StartRequest>, first: seq<Action>, stale: seq<string>,
                     oks: seq<bool>, o: nat -> Outcome, w: string -> Outcome, i: nat)
    requires Named(desired) && i < |desired| && desired[i].name == Some("all")
    requires IsExecution(states, first + Deletions(stale), oks, o, w, |first| + |stale|)
    requires Shaped(states[0], desired, first, stale) && first[i] == Recreate(desired[i])
    ensures !AllOk(oks) && states[|first| + |stale|].processes.Keys <= NamesOf(desired)
  {
    var plan := first + Deletions(stale);
    ShapedParts(states[0], desired, first, stale);
    assert plan[i] == first[i];
    forall n ensures !oks[i] && (n in states[|plan|].processes ==> n in NamesOf(desired)) {
      RecreatingAll(states, plan, oks, o, w, i, n);
    }
  }

  lemma RestartedAll(states: seq<State>, desired: seq<StartRequest>, first: seq<Action>, oks: seq<bool>,
                     o: nat -> Outcome, w: string -> Outcome, i: nat)
    requires Named(desired) && Distinct(desired) && i < |desired| && desired[i].name == Some("all")
    requires IsExecution(states, first, oks, o, w, |first|) && AllOk(oks) && "all" in states[0].processes
    requires Shaped(states[0], desired, first, []) && first[i] == RestartApp("all")
    ensures BystandersRestarted(states[0], desired, w, states[|first|])
  {
    assert first + Deletions([]) == first;
    AllIsTheException(states[0], desired, first, [], i);
    RestartingAll(states, first, oks, o, w, i);
    forall n | n in states[0].processes && n !in NamesOf(desired)
      ensures SlotOf(states[|first|], n) == RestartSlot(SlotOf(states[0], n), true, w(n))
    {
      UntargetedIf(states[0], desired, first, [], n);
    }
  }

  lemma AchievedWithAll(states: seq<State>, plan: seq<Action>, desired: seq<StartRequest>, first: seq<Action>,
                        stale: seq<string>, oks: seq<bool>, o: nat -> Outcome, w: string -> Outcome, i: nat)
    requires Named(desired) && Distinct(desired) && i < |desired| && desired[i].name == Some("all")
    requires IsExecution(states, plan, oks, o, w, |plan|) && AllOk(oks) && plan == first + Deletions(stale)
    requires Shaped(states[0], desired, first, stale) && first[i] == RestartApp("all") && "all" in states[0].processes
    ensures ThroughAll(states[0], plan, |plan|, states[|plan|])
  {
    AllIsTheException(states[0], desired, first, stale, i);
    forall k | 0 <= k < i ensures !plan[k].DeleteApp? {
      assert ForSpec(states[0], desired[k], first[k]);
    }
    RestartingAllAchieves(states, plan, oks, o, w, i);
  }

  /** A running process that was at most restarted since is still satisfied. */
  lemma StillSatisfied(s: State, r: StartRequest, s': State)
    requires r.name.Some? && Satisfied(s, r) && StillThere(SlotOf(s, r.name.value), SlotOf(s', r.name.value))
    ensures Satisfied(s', r)
  {
    assert SlotOf(s', r.name.value).proc.Some?;
  }

  lemma DesiredWithAll(s: State, desired: seq<StartRequest>, first: seq<Action>, stale: seq<string>, s': State)
    requires Named(desired) && Distinct(desired) && Shaped(s, desired, first, stale)
    requires first == DesiredActions(Listed(s), desired)
    requires ThroughAll(s, first + Deletions(stale), |first| + |stale|, s')
    ensures DesiredApplied(s, desired, s')
  {
    forall i | 0 <= i < |desired|
      ensures desired[i].name.value in s'.processes && (Satisfied(s', desired[i]) <==> Settles(s, desired[i]))
    {
      DesiredOneWithAll(s, desired, first, stale, s', i);
    }
  }

  lemma DesiredOneWithAll(s: State, desired: seq<StartRequest>, first: seq<Action>, stale: seq<string>, s': State,
                          i: nat)
    requires Named(desired) && Distinct(desired) && i < |desired| && Shaped(s, desired, first, stale)
    requires first[i] == ActionFor(Listed(s), desired[i])
    requires ThroughAll(s, first + Deletions(stale), |first| + |stale|, s')
    ensures desired[i].name.value in s'.processes && (Satisfied(s', desired[i]) <==> Settles(s, desired[i]))
  {
    var plan := first + Deletions(stale);
    assert plan[i] == first[i];
    if first[i] == Noop {
      SettledIsUntargeted(s, desired, first, stale, i);
    }
    PartsOfThroughAll(s, plan, i, desired[i].name.value, s');
    OneWithAll(s, desired[i], first[i], s');
  }

  lemma SettledIsUntargeted(s: State, desired: seq<StartRequest>, first: seq<Action>, stale: seq<string>, i: nat)
    requires Named(desired) && Distinct(desired) && i < |desired| && Shaped(s, desired, first, stale)
    requires first[i] == Noop
    ensures Untargeted(first + Deletions(stale), |first + Deletions(stale)|, desired[i].name.value)
  {
    UntargetedIf(s, desired, first, stale, desired[i].name.value);
  }

  lemma PartsOfThroughAll(s: State, plan: seq<Action>, i: nat, n: string, s': State)
    requires i < |plan| && ThroughAll(s, plan, |plan|, s')
    ensures Achieved(s, plan[i], s')
    ensures Untargeted(plan, |plan|, n) ==> StillThere(SlotOf(s, n), SlotOf(s', n))
  {
  }

  lemma OneWithAll(s: State, r: StartRequest, a: Action, s': State)
    requires r.name.Some? && a == ActionFor(Listed(s), r) && Achieved(s, a, s')
    requires a == Noop ==> StillThere(SlotOf(s, r.name.value), SlotOf(s', r.name.value))
    ensures r.name.value in s'.processes && (Satisfied(s', r) <==> Settles(s, r))
  {
    if a == Noop {
      KeptIsSatisfied(s, r, s');
    } else {
      AchievedIsSatisfied(s, r, s');
    }
  }

  lemma KeptIsSatisfied(s: State, r: StartRequest, s': State)
    requires r.name.Some? && ActionFor(Listed(s), r) == Noop
    requires StillThere(SlotOf(s, r.name.value), SlotOf(s', r.name.value))
    ensures r.name.value in s'.processes && (Satisfied(s', r) <==> Settles(s, r))
  {
    NoopIff(s, r);
    StillSatisfied(s, r, s');
  }

  lemma OthersWithAll(s: State, desired: seq<StartRequest>, first: seq<Action>, stale: seq<string>, s': State)
    requires Named(desired) && Shaped(s, desired, first, stale) && LifecycleInvariant.Inv(s')
    requires forall n :: n in stale <==> n in s.processes && n !in NamesOf(desired)
    requires ThroughAll(s, first + Deletions(stale), |first| + |stale|, s')
    ensures OthersApplied(s, desired, true, s')
  {
    forall n | n !in NamesOf(desired) ensures SlotOf(s', n) == EMPTY {
      if n in stale {
        var k :| 0 <= k < |stale| && stale[k] == n;
        assert (first + Deletions(stale))[|first| + k] == DeleteApp(n);
      } else {
        UntargetedIf(s, desired, first, stale, n);
        assert SlotOf(s, n).proc.None? && SlotOf(s', n).proc.None?;
        assert LifecycleInvariant.SlotOk(n, SlotOf(s', n));
      }
    }
  }

  ghost predicate BystandersRestarted(s: State, desired: seq<StartRequest>, w: string -> Outcome, s': State)
    requires Named(desired)
  {
    forall n :: n in s.processes && n !in NamesOf(desired) ==>
                  SlotOf(s', n) == RestartSlot(SlotOf(s, n), true, w(n))
  }

  lemma AllIsTheException(s: State, desired: seq<StartRequest>, first: seq<Action>, stale: seq<string>, i: nat)
    requires Named(desired) && Distinct(desired) && Shaped(s, desired, first, stale) && i < |desired|
    requires desired[i].name == Some("all") && first[i] == RestartApp("all") && "all" in s.processes
    ensures SoundBut(s, first + Deletions(stale), i)
  {
    var plan := first + Deletions(stale);
    ShapedTargetsDiffer(s, desired, first, stale);
    assert desired[i].name.value in NamesOf(desired);
    forall k | 0 <= k < |plan| && k != i ensures Addresses(s, plan[k]) {
      if k < |first| {
        assert ForSpec(s, desired[k], first[k]);
        AddressedIff(s, desired[k], first[k]);
      } else {
        assert plan[k] == DeleteApp(stale[k - |first|]) && stale[k - |first|] in stale;
      }
    }
  }

  /** Otherwise the requests meant for one process hit all of them: pruning `all` leaves
      nothing, recreating it fails and leaves at most desired processes, and restarting
      it restarts processes nobody mentioned, if they are not pruned. */
  lemma HarmfulRun(states: seq<State>, desired: seq<StartRequest>, prune: bool, plan: seq<Action>, oks: seq<bool>,
                   o: nat -> Outcome, w: string -> Outcome)
    requires Named(desired) && Distinct(desired) && IsExecution(states, plan, oks, o, w, |plan|)
    requires plan == Plan(Listed(states[0]), desired, prune) && !Harmless(states[0], desired, prune)
    requires LifecycleInvariant.Inv(states[|plan|])
    ensures Harmed(states[0], desired, prune, AllOk(oks), w, states[|plan|])
  {
    if "all" !in NamesOf(desired) {
      HarmfulPruning(states, desired, prune, plan, oks, o, w);
    } else {
      HarmfulForDesired(states, desired, prune, plan, oks, o, w);
    }
  }

  lemma HarmfulPruning(states: seq<State>, desired: seq<StartRequest>, prune: bool, plan: seq<Action>,
                       oks: seq<bool>, o: nat -> Outcome, w: string -> Outcome)
    requires Named(desired) && IsExecution(states, plan, oks, o, w, |plan|)
    requires plan == Plan(Listed(states[0]), desired, prune)
    requires prune && "all" in states[0].processes && "all" !in NamesOf(desired)
    ensures states[|plan|].processes == map[]
  {
    PlanShape(states[0], desired, prune);
    PrunedAll(states, plan, DesiredActions(Listed(states[0]), desired), Stale(states[0], desired, prune), oks, o, w);
  }

  lemma HarmfulForDesired(states: seq<State>, desired: seq<StartRequest>, prune: bool, plan: seq<Action>,
                          oks: seq<bool>, o: nat -> Outcome, w: string -> Outcome)
    requires Named(desired) && Distinct(desired) && IsExecution(states, plan, oks, o, w, |plan|)
    requires plan == Plan(Listed(states[0]), desired, prune) && "all" in NamesOf(desired)
    requires "all" in states[0].processes && !AllIsSatisfied(states[0], desired)
    requires LifecycleInvariant.Inv(states[|plan|])
    ensures Harmed(states[0], desired, prune, AllOk(oks), w, states[|plan|])
  {
    var i := AllAt(desired);
    if !AllHasSettings(states[0], desired) {
      HarmfulRecreation(states, desired, prune, plan, oks, o, w, i);
    } else if AllOk(oks) {
      RestartApplies(states, desired, prune, plan, oks, o, w, i);
      if !prune {
        HarmfulRestart(states, desired, plan, oks, o, w, i);
      }
    }
  }

  lemma RestartApplies(states: seq<State>, desired: seq<StartRequest>, prune: bool, plan: seq<Action>,
                       oks: seq<bool>, o: nat -> Outcome, w: string -> Outcome, i: nat)
    requires Named(desired) && Distinct(desired) && IsExecution(states, plan, oks, o, w, |plan|) && AllOk(oks)
    requires plan == Plan(Listed(states[0]), desired, prune) && i < |desired| && desired[i].name == Some("all")
    requires "all" in states[0].processes && AllHasSettings(states[0], desired) && !AllIsSatisfied(states[0], desired)
    requires LifecycleInvariant.Inv(states[|plan|])
    ensures DesiredApplied(states[0], desired, states[|plan|])
    ensures prune ==> OthersApplied(states[0], desired, prune, states[|plan|])
  {
    var s := states[0];
    var first, stale := DesiredActions(Listed(s), desired), Stale(s, desired, prune);
    PlanShape(s, desired, prune);
    PlanIsShaped(s, desired, prune);
    AllsAction(s, desired, i);
    AchievedWithAll(states, plan, desired, first, stale, oks, o, w, i);
    AllRestartApplies(s, desired, prune, plan, first, stale, states[|plan|]);
  }

  lemma AllRestartApplies(s: State, desired: seq<StartRequest>, prune: bool, plan: seq<Action>, first: seq<Action>,
                          stale: seq<string>, s': State)
    requires Named(desired) && Distinct(desired) && Shaped(s, desired, first, stale)
    requires first == DesiredActions(Listed(s), desired) && LifecycleInvariant.Inv(s')
    requires forall n :: n in stale <==> prune && n in s.processes && n !in NamesOf(desired)
    requires plan == first + Deletions(stale) && ThroughAll(s, plan, |plan|, s')
    ensures DesiredApplied(s, desired, s')
    ensures prune ==> OthersApplied(s, desired, prune, s')
  {
    DesiredWithAll(s, desired, first, stale, s');
    if prune {
      OthersWithAll(s, desired, first, stale, s');
    }
  }

  lemma HarmfulRecreation(states: seq<State>, desired: seq<StartRequest>, prune: bool, plan: seq<Action>,
                          oks: seq<bool>, o: nat -> Outcome, w: string -> Outcome, i: nat)
    requires Named(desired) && Distinct(desired) && IsExecution(states, plan, oks, o, w, |plan|)
    requires plan == Plan(Listed(states[0]), desired, prune) && i < |desired| && desired[i].name == Some("all")
    requires "all" in states[0].processes && !AllHasSettings(states[0], desired)
    ensures !AllOk(oks) && states[|plan|].processes.Keys <= NamesOf(desired)
  {
    var s := states[0];
    var first, stale := DesiredActions(Listed(s), desired), Stale(s, desired, prune);
    PlanShape(s, desired, prune);
    PlanIsShaped(s, desired, prune);
    AllsAction(s, desired, i);
    RecreatedAll(states, desired, first, stale, oks, o, w, i);
  }

  lemma HarmfulRestart(states: seq<State>, desired: seq<StartRequest>, plan: seq<Action>,
                       oks: seq<bool>, o: nat -> Outcome, w: string -> Outcome, i: nat)
    requires Named(desired) && Distinct(desired) && IsExecution(states, plan, oks, o, w, |plan|) && AllOk(oks)
    requires plan == Plan(Listed(states[0]), desired, false) && i < |desired| && desired[i].name == Some("all")
    requires "all" in states[0].processes && AllHasSettings(states[0], desired) && !AllIsSatisfied(states[0], desired)
    ensures BystandersRestarted(states[0], desired, w, states[|plan|])
  {
    UnprunedPlan(states[0], desired);
    AllsAction(states[0], desired, i);
    RestartedAll(states, desired, plan, oks, o, w, i);
  }

  lemma AllsAction(s: State, desired: seq<StartRequest>, i: nat)
    requires Named(desired) && Distinct(desired) && i < |desired| && desired[i].name == Some("all")
    requires "all" in s.processes && (AllHasSettings(s, desired) ==> !AllIsSatisfied(s, desired))
    ensures DesiredActions(Listed(s), desired)[i]
            == if AllHasSettings(s, desired) then RestartApp("all") else Recreate(desired[i])
  {
    OnlyOneAll(s, desired, i);
    UnsatisfiedAction(s, desired[i]);
  }

  lemma OnlyOneAll(s: State, desired: seq<StartRequest>, i: nat)
    requires Named(desired) && Distinct(desired) && i < |desired| && desired[i].name == Some("all")
    ensures AllHasSettings(s, desired) <==> HasSettings(s, desired[i])
    ensures AllIsSatisfied(s, desired) <==> Satisfied(s, desired[i])
  {
    assert forall j :: 0 <= j < |desired| && desired[j].name.value == "all" ==> j == i;
  }

  /** What a run comes to, whatever is managed and desired. */
  ghost predicate ComesTo(s: State, desired: seq<StartRequest>, prune: bool, flawless: bool, w: string -> Outcome,
                          s': State)
    requires Named(desired)
  {
    if Harmless(s, desired, prune) then
      (flawless ==> Applied(s, desired, prune, s')) && (!prune ==> BystandersKept(s, desired, s'))
    else Harmed(s, desired, prune, flawless, w, s')
  }

  /** A flawless run has converged, unless it pruned a process called `all`. */
  lemma FlawlessConverges(s: State, desired: seq<StartRequest>, prune: bool, w: string -> Outcome, s': State)
    requires Named(desired) && ComesTo(s, desired, prune, true, w, s')
    requires Harmless(s, desired, prune) || "all" in NamesOf(desired)
    ensures Converged(s, desired, prune, s')
  {
  }

  lemma RunComesTo(states: seq<State>, desired: seq<StartRequest>, prune: bool, plan: seq<Action>, oks: seq<bool>,
                   o: nat -> Outcome, w: string -> Outcome)
    requires Named(desired) && Distinct(desired) && IsExecution(states, plan, oks, o, w, |plan|)
    requires plan == Plan(Listed(states[0]), desired, prune)
    requires LifecycleInvariant.Inv(states[0]) && LifecycleInvariant.Inv(states[|plan|])
    ensures ComesTo(states[0], desired, prune, AllOk(oks), w, states[|plan|])
  {
    if Harmless(states[0], desired, prune) {
      HarmlessRun(states, desired, prune, plan, oks, o, w);
    } else {
      HarmfulRun(states, desired, prune, plan, oks, o, w);
    }
  }

  /** Requests may not ask for the name `all`, but a process started without a name can
      be given it. */
  lemma AllCanBeManaged(s: State, r: StartRequest)
    requires "all" !in s.processes && r.parses && r.name.None? && r.stem == "all"
    ensures Names(s.processes, r, "all")
  {
    assert AutoName.IsAutoName(s.processes.Keys, r.stem, "all");
  }
}
