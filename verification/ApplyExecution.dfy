/** What the actions of a plan do to the daemon, one after the other. */
module ApplyExecution {
  import opened Prelude
  import opened Domain
  import opened Lifecycle
  import opened Daemon
  import opened Apply

  /** The process an action is about. */
  function TargetOf(a: Action): Option<string> {
    match a
    case StartApp(r) => r.name
    case RestartApp(n) => Some(n)
    case Recreate(r) => r.name
    case DeleteApp(n) => Some(n)
    case Noop => None
  }

  /** An action addresses one process: a known name, or a new one for a start. The
      requests for `all` address every process instead. */
  ghost predicate Addresses(s: State, a: Action) {
    match a
    case StartApp(r) => r.name.Some? && r.name.value !in s.processes
    case RestartApp(n) => n in s.processes && n != "all"
    case Recreate(r) => r.name.Some? && r.name.value in s.processes && r.name.value != "all"
    case DeleteApp(n) => n in s.processes && n != "all"
    case Noop => true
  }

  /** Running, with these settings. */
  ghost predicate Runs(x: Slot, c: Config) {
    x.proc.Some? && IsUp(x.proc.value) && x.proc.value.config == c
  }

  /** What a successful action achieves for its process. */
  ghost predicate Achieved(s: State, a: Action, s': State) {
    match a
    case StartApp(r) => r.name.Some? && Runs(SlotOf(s', r.name.value), Normalized(r.config))
    case RestartApp(n) => n in s.processes && Runs(SlotOf(s', n), s.processes[n].config)
    case Recreate(r) => r.name.Some? && Runs(SlotOf(s', r.name.value), Normalized(r.config))
    case DeleteApp(n) => SlotOf(s', n) == EMPTY
    case Noop => true
  }

  ghost predicate OthersKept(s: State, s': State, target: Option<string>) {
    forall n :: Some(n) != target ==> SlotOf(s', n) == SlotOf(s, n)
  }

  // ---------------------------------------------------------------------
  // One action
  // ---------------------------------------------------------------------

  /** The daemon handles a request. */
  ghost predicate Handles(s: State, r: Request, ok: bool, s': State) {
    Answers(s, r, ok) && exists e :: Dispatches(r, e) && Next(s, e, s')
  }

  /** The requests an action sends, and whether it counts as a success. Recreating
      deletes first and starts anew; a failed deletion leaves it at that. */
  ghost predicate Acts(s: State, a: Action, o: Outcome, w: string -> Outcome, ok: bool, s': State) {
    match a
    case StartApp(r) => r.name.Some? && Handles(s, StartRequested(r, o), ok, s')
    case RestartApp(n) => Handles(s, RestartRequested(n, o, w), ok, s')
    case Recreate(r) => r.name.Some? && Recreates(s, r, o, ok, s')
    case DeleteApp(n) => Handles(s, DeleteRequested(n), ok, s')
    case Noop => ok && s' == s
  }

  ghost predicate Recreates(s: State, r: StartRequest, o: Outcome, ok: bool, s': State)
    requires r.name.Some?
  {
    || (!ok && Handles(s, DeleteRequested(r.name.value), false, s'))
    || exists m :: Handles(s, DeleteRequested(r.name.value), true, m) && Handles(m, StartRequested(r, o), ok, s')
  }

  lemma StartHandled(s: State, r: StartRequest, o: Outcome, ok: bool, s': State)
    requires Handles(s, StartRequested(r, o), ok, s') && r.name.Some?
    ensures OthersKept(s, s', r.name)
    ensures ok ==> Runs(SlotOf(s', r.name.value), Normalized(r.config))
    ensures !ok ==> SlotOf(s', r.name.value) == SlotOf(s, r.name.value)
  {
    forall n ensures SlotOf(s', n) == Effect(s, Start(r, o), n) {
    }
  }

  lemma RestartHandled(s: State, name: string, o: Outcome, w: string -> Outcome, ok: bool, s': State)
    requires Handles(s, RestartRequested(name, o, w), ok, s') && name in s.processes && name != "all"
    ensures OthersKept(s, s', Some(name))
    ensures ok ==> Runs(SlotOf(s', name), s.processes[name].config)
  {
    forall n ensures SlotOf(s', n) == Effect(s, Restart(name, o), n) {
    }
    assert forall n :: Resolves(s.processes, name, n) <==> n == name;
  }

  lemma DeleteHandled(s: State, name: string, ok: bool, s': State)
    requires Handles(s, DeleteRequested(name), ok, s') && name in s.processes && name != "all"
    ensures ok && OthersKept(s, s', Some(name)) && SlotOf(s', name) == EMPTY
  {
    forall n ensures SlotOf(s', n) == Effect(s, Delete(name), n) {
    }
    assert Resolves(s.processes, name, name);
  }

  lemma RecreateHandled(s: State, r: StartRequest, o: Outcome, ok: bool, s': State)
    requires Addresses(s, Recreate(r)) && Recreates(s, r, o, ok, s')
    ensures OthersKept(s, s', r.name)
    ensures ok ==> Runs(SlotOf(s', r.name.value), Normalized(r.config))
  {
    var name := r.name.value;
    if m :| Handles(s, DeleteRequested(name), true, m) && Handles(m, StartRequested(r, o), ok, s') {
      DeleteHandled(s, name, true, m);
      StartHandled(m, r, o, ok, s');
      forall n | n != name ensures SlotOf(s', n) == SlotOf(s, n) {
        assert SlotOf(s', n) == SlotOf(m, n);
      }
    } else {
      DeleteHandled(s, name, false, s');
    }
  }

  /** An action that addresses a process changes no other, and on success achieves
      what it is for. */
  lemma ActsOnTarget(s: State, a: Action, o: Outcome, w: string -> Outcome, ok: bool, s': State)
    requires Addresses(s, a) && Acts(s, a, o, w, ok, s')
    ensures OthersKept(s, s', TargetOf(a))
    ensures ok ==> Achieved(s, a, s')
  {
    match a
    case StartApp(r) => StartHandled(s, r, o, ok, s');
    case RestartApp(n) => RestartHandled(s, n, o, w, ok, s');
    case Recreate(r) => RecreateHandled(s, r, o, ok, s');
    case DeleteApp(n) => DeleteHandled(s, n, ok, s');
    case Noop =>
  }

  /** A request the daemon would start, if its name is free. Validation does not look at
      names: they are the daemon's to judge. */
  predicate Startable(r: StartRequest) {
    r.parses && r.name.Some? && ValidName(r.name.value)
  }

  /** When an action that addresses its process succeeds. */
  ghost predicate Works(s: State, a: Action, o: Outcome) {
    match a
    case StartApp(r) => Startable(r) && o.spawned.Some?
    case RestartApp(n) => RestartOk(SlotOf(s, n), o)
    case Recreate(r) => Startable(r) && o.spawned.Some?
    case DeleteApp(_) => true
    case Noop => true
  }

  lemma WorksIff(s: State, a: Action, o: Outcome, w: string -> Outcome, ok: bool, s': State)
    requires Addresses(s, a) && Acts(s, a, o, w, ok, s')
    ensures ok <==> Works(s, a, o)
  {
    match a
    case StartApp(r) =>
    case RestartApp(n) => assert Resolves(s.processes, n, n);
    case Recreate(r) => RecreationWorksIff(s, r, o, ok, s');
    case DeleteApp(n) => DeleteHandled(s, n, ok, s');
    case Noop =>
  }

  /** The deletion always succeeds, and leaves the name free. */
  lemma RecreationWorksIff(s: State, r: StartRequest, o: Outcome, ok: bool, s': State)
    requires Addresses(s, Recreate(r)) && Recreates(s, r, o, ok, s')
    ensures ok <==> Startable(r) && o.spawned.Some?
  {
    var name := r.name.value;
    if !ok && Handles(s, DeleteRequested(name), false, s') {
      DeleteHandled(s, name, false, s');
    } else {
      var m :| Handles(s, DeleteRequested(name), true, m) && Handles(m, StartRequested(r, o), ok, s');
      DeleteHandled(s, name, true, m);
      assert SlotOf(m, name).proc.None?;
    }
  }

  // ---------------------------------------------------------------------
  // All actions
  // ---------------------------------------------------------------------

  /** `states` are passed through while the first `k` actions are tried, each
      whatever the earlier ones came to. */
  ghost predicate IsExecution(states: seq<State>, plan: seq<Action>, oks: seq<bool>, o: nat -> Outcome,
                              w: string -> Outcome, k: nat)
  {
    && k == |oks| <= |plan| && |states| == k + 1
    && forall i :: 0 <= i < k ==> Tries(states, plan, oks, o, w, i)
  }

  ghost predicate Tries(states: seq<State>, plan: seq<Action>, oks: seq<bool>, o: nat -> Outcome, w: string -> Outcome,
                        i: nat)
    requires i < |plan| && i < |oks| && i + 1 < |states|
  {
    Acts(states[i], plan[i], o(i), w, oks[i], states[i + 1])
  }

  lemma ActsAt(states: seq<State>, plan: seq<Action>, oks: seq<bool>, o: nat -> Outcome, w: string -> Outcome,
               k: nat, i: nat)
    requires IsExecution(states, plan, oks, o, w, k) && i < k
    ensures Acts(states[i], plan[i], o(i), w, oks[i], states[i + 1])
  {
    assert Tries(states, plan, oks, o, w, i);
  }

  /** Every action addresses one process of the state the plan was made for, and no
      process is addressed twice. */
  ghost predicate Sound(s: State, plan: seq<Action>) {
    (forall i :: 0 <= i < |plan| ==> Addresses(s, plan[i])) && TargetsDiffer(plan)
  }

  ghost predicate TargetsDiffer(plan: seq<Action>) {
    forall i, j :: 0 <= i < j < |plan| && TargetOf(plan[i]).Some? ==> TargetOf(plan[i]) != TargetOf(plan[j])
  }

  ghost predicate Untargeted(plan: seq<Action>, k: nat, n: string) {
    forall i :: 0 <= i < k && i < |plan| ==> TargetOf(plan[i]) != Some(n)
  }

  /** The first `k` actions have been tried. */
  ghost predicate Through(s: State, plan: seq<Action>, k: nat, s': State, flawless: bool)
    requires k <= |plan|
  {
    && (forall n :: Untargeted(plan, k, n) ==> SlotOf(s', n) == SlotOf(s, n))
    && (flawless ==> forall i :: 0 <= i < k ==> Achieved(s, plan[i], s'))
  }

  lemma AchievedStill(s: State, a: Action, b: Action, s1: State, s2: State)
    requires Achieved(s, a, s1) && OthersKept(s1, s2, TargetOf(b))
    requires TargetOf(a).Some? ==> TargetOf(a) != TargetOf(b)
    ensures Achieved(s, a, s2)
  {
    if TargetOf(a).Some? {
      assert SlotOf(s2, TargetOf(a).value) == SlotOf(s1, TargetOf(a).value);
    }
  }

  /** An action not yet tried finds its process as the plan saw it. */
  lemma AddressesStill(s: State, a: Action, s': State)
    requires Addresses(s, a) && (TargetOf(a).Some? ==> SlotOf(s', TargetOf(a).value) == SlotOf(s, TargetOf(a).value))
    ensures Addresses(s', a)
    ensures forall s'' :: Achieved(s', a, s'') ==> Achieved(s, a, s'')
  {
    if TargetOf(a).Some? {
      assert SlotOf(s', TargetOf(a).value).proc == SlotOf(s, TargetOf(a).value).proc;
    }
  }

  lemma ThroughNext(s: State, plan: seq<Action>, k: nat, s1: State, s2: State, flawless: bool, o: Outcome,
                    w: string -> Outcome, ok: bool)
    requires Sound(s, plan) && k < |plan| && Through(s, plan, k, s1, flawless)
    requires Acts(s1, plan[k], o, w, ok, s2)
    ensures Through(s, plan, k + 1, s2, flawless && ok)
  {
    if TargetOf(plan[k]).Some? {
      assert Untargeted(plan, k, TargetOf(plan[k]).value);
    }
    AddressesStill(s, plan[k], s1);
    ActsOnTarget(s1, plan[k], o, w, ok, s2);
    UntouchedNext(s, plan, k, s1, s2);
    if flawless && ok {
      forall i | 0 <= i < k ensures Achieved(s, plan[i], s2) {
        AchievedStill(s, plan[i], plan[k], s1, s2);
      }
    }
  }

  lemma UntouchedNext(s: State, plan: seq<Action>, k: nat, s1: State, s2: State)
    requires k < |plan| && forall n :: Untargeted(plan, k, n) ==> SlotOf(s1, n) == SlotOf(s, n)
    requires OthersKept(s1, s2, TargetOf(plan[k]))
    ensures forall n :: Untargeted(plan, k + 1, n) ==> SlotOf(s2, n) == SlotOf(s, n)
  {
    forall n | Untargeted(plan, k + 1, n) ensures SlotOf(s2, n) == SlotOf(s, n) {
      assert Untargeted(plan, k, n) && TargetOf(plan[k]) != Some(n);
    }
  }

  ghost predicate AllOk(oks: seq<bool>) {
    forall i :: 0 <= i < |oks| ==> oks[i]
  }

  /** Trying a sound plan touches the addressed processes only, and if no action
      fails, all of them achieve together what they are for. */
  lemma SoundExecution(states: seq<State>, plan: seq<Action>, oks: seq<bool>, o: nat -> Outcome,
                       w: string -> Outcome, k: nat)
    requires IsExecution(states, plan, oks, o, w, k) && Sound(states[0], plan)
    ensures Through(states[0], plan, k, states[k], AllOk(oks))
  {
    SoundUpTo(states, plan, oks, o, w, k, k);
    assert oks[..k] == oks;
  }

  lemma SoundUpTo(states: seq<State>, plan: seq<Action>, oks: seq<bool>, o: nat -> Outcome, w: string -> Outcome,
                  k: nat, i: nat)
    requires IsExecution(states, plan, oks, o, w, k) && i <= k && Sound(states[0], plan)
    ensures Through(states[0], plan, i, states[i], AllOk(oks[..i]))
  {
    for j := 0 to i
      invariant Through(states[0], plan, j, states[j], AllOk(oks[..j]))
    {
      SoundStep(states, plan, oks, o, w, k, j);
    }
  }

  lemma SoundStep(states: seq<State>, plan: seq<Action>, oks: seq<bool>, o: nat -> Outcome, w: string -> Outcome,
                  k: nat, j: nat)
    requires IsExecution(states, plan, oks, o, w, k) && j < k && Sound(states[0], plan)
    requires Through(states[0], plan, j, states[j], AllOk(oks[..j]))
    ensures Through(states[0], plan, j + 1, states[j + 1], AllOk(oks[..j + 1]))
  {
    ActsAt(states, plan, oks, o, w, k, j);
    ThroughNext(states[0], plan, j, states[j], states[j + 1], AllOk(oks[..j]), o(j), w, oks[j]);
    AllOkNext(oks, j);
  }

  lemma AllOkNext(oks: seq<bool>, j: nat)
    requires j < |oks|
    ensures AllOk(oks[..j + 1]) <==> AllOk(oks[..j]) && oks[j]
  {
    assert oks[..j + 1] == oks[..j] + [oks[j]];
  }

  /** Which actions of a sound plan succeed: each on its own merits, whatever became of
      the others. */
  lemma SoundSucceedsIff(states: seq<State>, plan: seq<Action>, oks: seq<bool>, o: nat -> Outcome,
                         w: string -> Outcome, k: nat)
    requires IsExecution(states, plan, oks, o, w, |plan|) && Sound(states[0], plan) && k < |plan|
    ensures oks[k] <==> Works(states[0], plan[k], o(k))
  {
    ActsAt(states, plan, oks, o, w, |plan|, k);
    SoundUpTo(states, plan, oks, o, w, |plan|, k);
    SucceedsIff(states[0], plan, k, states[k], states[k + 1], AllOk(oks[..k]), o(k), w, oks[k]);
  }

  lemma SucceedsIff(s: State, plan: seq<Action>, k: nat, s1: State, s2: State, flawless: bool, o: Outcome,
                    w: string -> Outcome, ok: bool)
    requires Sound(s, plan) && k < |plan| && Through(s, plan, k, s1, flawless)
    requires Acts(s1, plan[k], o, w, ok, s2)
    ensures ok <==> Works(s, plan[k], o)
  {
    if TargetOf(plan[k]).Some? {
      assert Untargeted(plan, k, TargetOf(plan[k]).value);
    }
    AddressesStill(s, plan[k], s1);
    WorksIff(s1, plan[k], o, w, ok, s2);
  }

  /** A plan without anything to do does nothing. */
  lemma IdleExecution(states: seq<State>, plan: seq<Action>, oks: seq<bool>, o: nat -> Outcome,
                      w: string -> Outcome, k: nat)
    requires IsExecution(states, plan, oks, o, w, k) && forall i :: 0 <= i < k ==> plan[i] == Noop
    ensures states[k] == states[0] && AllOk(oks)
  {
    for i := 0 to k
      invariant states[i] == states[0] && forall j :: 0 <= j < i ==> oks[j]
    {
      ActsAt(states, plan, oks, o, w, k, i);
    }
  }

  // ---------------------------------------------------------------------
  // Actions on a process called `all`
  // ---------------------------------------------------------------------

  lemma NothingLeft(s: State, s': State)
    requires Next(s, DeleteAll, s')
    ensures s'.processes == map[]
  {
    forall n ensures n !in s'.processes {
      assert SlotOf(s', n) == Effect(s, DeleteAll, n);
    }
  }

  /** An action brings in no process but the one it starts. */
  lemma OnlyStartsItsOwn(s: State, a: Action, o: Outcome, w: string -> Outcome, ok: bool, s': State)
    requires Acts(s, a, o, w, ok, s')
    ensures forall n :: n in s'.processes ==> n in s.processes || (!a.DeleteApp? && TargetOf(a) == Some(n))
  {
    match a
    case StartApp(r) => StartsItsOwn(s, r, o, ok, s');
    case RestartApp(m) => NothingNew(s, RestartRequested(m, o, w), ok, s');
    case DeleteApp(m) => NothingNew(s, DeleteRequested(m), ok, s');
    case Recreate(r) =>
      var d := DeleteRequested(r.name.value);
      if m :| Handles(s, d, true, m) && Handles(m, StartRequested(r, o), ok, s') {
        NothingNew(s, d, true, m);
        StartsItsOwn(m, r, o, ok, s');
      } else {
        NothingNew(s, d, false, s');
      }
    case Noop =>
  }

  lemma StartsItsOwn(s: State, r: StartRequest, o: Outcome, ok: bool, s': State)
    requires Handles(s, StartRequested(r, o), ok, s')
    ensures r.name.Some? ==> forall n :: n in s'.processes ==> n in s.processes || r.name == Some(n)
  {
    forall n | r.name.Some? && n in s'.processes ensures n in s.processes || r.name == Some(n) {
      assert SlotOf(s', n) == Effect(s, Start(r, o), n);
    }
  }

  lemma NothingNew(s: State, r: Request, ok: bool, s': State)
    requires Handles(s, r, ok, s') && (r.DeleteRequested? || r.RestartRequested?)
    ensures forall n :: n in s'.processes ==> n in s.processes
  {
    var e :| Dispatches(r, e) && Next(s, e, s');
    forall n | n in s'.processes ensures n in s.processes {
      assert SlotOf(s', n) == Effect(s, e, n);
      if n !in s.processes {
        MissingStaysMissing(s, e, n);
      }
    }
  }

  lemma MissingStaysMissing(s: State, e: Event, n: string)
    requires n !in s.processes && (e.Delete? || e.DeleteAll? || e.Restart? || e.RestartAll?)
    ensures Effect(s, e, n).proc.None?
  {
  }

  lemma {:induction false} OnlyDeletionsAfter(states: seq<State>, plan: seq<Action>, oks: seq<bool>, o: nat -> Outcome,
                                              w: string -> Outcome, j: nat, k: nat)
    requires k <= |plan| && IsExecution(states, plan, oks, o, w, |plan|) && j <= k
    requires states[j].processes == map[] && forall i :: j <= i < k ==> plan[i].DeleteApp?
    ensures states[k].processes == map[]
    decreases k - j
  {
    if j < k {
      ActsAt(states, plan, oks, o, w, |plan|, j);
      OnlyStartsItsOwn(states[j], plan[j], o(j), w, oks[j], states[j + 1]);
      assert states[j + 1].processes.Keys == {};
      OnlyDeletionsAfter(states, plan, oks, o, w, j + 1, k);
    }
  }

  /** Deleting `all` and then only deleting leaves nothing. */
  lemma DeletingAll(states: seq<State>, plan: seq<Action>, oks: seq<bool>, o: nat -> Outcome, w: string -> Outcome,
                    j: nat)
    requires IsExecution(states, plan, oks, o, w, |plan|) && j < |plan| && plan[j] == DeleteApp("all")
    requires forall i :: j <= i < |plan| ==> plan[i].DeleteApp?
    ensures states[|plan|].processes == map[]
  {
    ActsAt(states, plan, oks, o, w, |plan|, j);
    NothingLeft(states[j], states[j + 1]);
    OnlyDeletionsAfter(states, plan, oks, o, w, j + 1, |plan|);
  }

  lemma RecreateAllHandled(s: State, r: StartRequest, o: Outcome, ok: bool, s': State)
    requires r.name == Some("all") && Recreates(s, r, o, ok, s')
    ensures !ok && s'.processes == map[]
  {
    if m :| Handles(s, DeleteRequested("all"), true, m) && Handles(m, StartRequested(r, o), ok, s') {
      NothingLeft(s, m);
      StartHandled(m, r, o, ok, s');
      StartsItsOwn(m, r, o, ok, s');
      assert !NameAccepted(m.processes, r);
      assert SlotOf(s', "all").proc.None?;
      assert s'.processes.Keys == {};
    } else {
      NothingLeft(s, s');
    }
  }

  lemma {:induction false} NamesAfter(states: seq<State>, plan: seq<Action>, oks: seq<bool>, o: nat -> Outcome,
                                      w: string -> Outcome, j: nat, k: nat, n: string)
    requires IsExecution(states, plan, oks, o, w, |plan|) && j <= k <= |plan|
    requires n in states[k].processes && states[j].processes == map[]
    ensures exists i :: j <= i < k && !plan[i].DeleteApp? && TargetOf(plan[i]) == Some(n)
    decreases k - j
  {
    if j < k {
      ActsAt(states, plan, oks, o, w, |plan|, k - 1);
      OnlyStartsItsOwn(states[k - 1], plan[k - 1], o(k - 1), w, oks[k - 1], states[k]);
      if n in states[k - 1].processes {
        NamesAfter(states, plan, oks, o, w, j, k - 1, n);
      }
    }
  }

  /** Recreating `all` deletes every process and then fails, the name being reserved;
      only processes the plan starts afterwards remain. */
  lemma RecreatingAll(states: seq<State>, plan: seq<Action>, oks: seq<bool>, o: nat -> Outcome, w: string -> Outcome,
                      j: nat, n: string)
    requires IsExecution(states, plan, oks, o, w, |plan|) && j < |plan|
    requires plan[j].Recreate? && plan[j].spec.name == Some("all")
    ensures !oks[j]
    ensures n in states[|plan|].processes ==> exists i :: j < i < |plan| && !plan[i].DeleteApp? && TargetOf(plan[i]) == Some(n)
  {
    ActsAt(states, plan, oks, o, w, |plan|, j);
    RecreateAllHandled(states[j], plan[j].spec, o(j), oks[j], states[j + 1]);
    if n in states[|plan|].processes {
      NamesAfter(states, plan, oks, o, w, j + 1, |plan|, n);
    }
  }

  // ---------------------------------------------------------------------
  // Restarting `all`
  // ---------------------------------------------------------------------

  lemma AllReached(s: State, order: seq<string>, w: string -> Outcome, n: string)
    requires RunsToFirstFailure(s, order, w) && n in s.processes
    requires forall m :: m in s.processes ==> RestartOk(SlotOf(s, m), w(m))
    ensures ReachedBy(s, order, w, n)
  {
    assert order != [] ==> order[|order| - 1] in s.processes;
    var k :| 0 <= k < |order| && order[k] == n;
    assert forall j :: 0 <= j < k ==> order[j] in s.processes;
  }

  lemma RestartAllHandled(s: State, o: Outcome, w: string -> Outcome, ok: bool, s': State)
    requires Handles(s, RestartRequested("all", o, w), ok, s')
    ensures forall n :: n in s'.processes <==> n in s.processes
    ensures ok ==> forall n :: n in s.processes ==> SlotOf(s', n) == RestartSlot(SlotOf(s, n), true, w(n))
  {
    var e :| Dispatches(RestartRequested("all", o, w), e) && Next(s, e, s');
    forall n
      ensures n in s'.processes <==> n in s.processes
      ensures ok && n in s.processes ==> SlotOf(s', n) == RestartSlot(SlotOf(s, n), true, w(n))
    {
      assert SlotOf(s', n) == Effect(s, e, n);
      assert SlotOf(s', n) in {SlotOf(s, n), RestartSlot(SlotOf(s, n), true, w(n))};
      if ok && n in s.processes {
        AllReached(s, e.order, w, n);
      }
    }
  }

  /** The plan addresses single processes, except that action `j` restarts `all`. */
  ghost predicate SoundBut(s: State, plan: seq<Action>, j: nat) {
    && j < |plan| && plan[j] == RestartApp("all") && "all" in s.processes
    && (forall i :: 0 <= i < |plan| && i != j ==> Addresses(s, plan[i]))
    && TargetsDiffer(plan)
  }

  lemma SameMembers(s: State, a: Action, s': State)
    requires Addresses(s, a)
    requires TargetOf(a).Some? ==> (TargetOf(a).value in s'.processes <==> TargetOf(a).value in s.processes)
    ensures Addresses(s', a)
  {
  }

  /** Processes the plan is not about, before and after `all` was restarted. */
  ghost predicate BystandersAt(s: State, plan: seq<Action>, j: nat, k: nat, s': State, w: string -> Outcome) {
    && (forall n :: Untargeted(plan, k, n) ==> (n in s'.processes <==> n in s.processes))
    && (forall n :: Untargeted(plan, |plan|, n) && n in s.processes ==>
                      SlotOf(s', n) == if k <= j then SlotOf(s, n) else RestartSlot(SlotOf(s, n), true, w(n)))
  }

  lemma BystandersOfOne(s: State, plan: seq<Action>, j: nat, k: nat, s1: State, s2: State, o: Outcome,
                        w: string -> Outcome, ok: bool)
    requires SoundBut(s, plan, j) && k < |plan| && k != j && BystandersAt(s, plan, j, k, s1, w)
    requires Acts(s1, plan[k], o, w, ok, s2)
    ensures BystandersAt(s, plan, j, k + 1, s2, w)
  {
    TargetsAreUntried(plan, k);
    KeepsOthers(s, plan[k], s1, s2, o, w, ok);
    BystandersLeft(s, plan, j, k, s1, s2, w);
  }

  lemma TargetsAreUntried(plan: seq<Action>, k: nat)
    requires TargetsDiffer(plan) && k < |plan|
    ensures TargetOf(plan[k]).Some? ==> Untargeted(plan, k, TargetOf(plan[k]).value)
  {
  }

  lemma BystandersOfAll(s: State, plan: seq<Action>, j: nat, s1: State, s2: State, o: Outcome, w: string -> Outcome)
    requires j < |plan| && BystandersAt(s, plan, j, j, s1, w)
    requires Handles(s1, RestartRequested("all", o, w), true, s2)
    ensures BystandersAt(s, plan, j, j + 1, s2, w)
  {
    RestartAllHandled(s1, o, w, true, s2);
    BystandersRestarted(s, plan, j, s1, s2, w);
  }

  lemma KeepsOthers(s: State, a: Action, s1: State, s2: State, o: Outcome, w: string -> Outcome, ok: bool)
    requires Addresses(s, a) && Acts(s1, a, o, w, ok, s2)
    requires TargetOf(a).Some? ==> (TargetOf(a).value in s1.processes <==> TargetOf(a).value in s.processes)
    ensures OthersKept(s1, s2, TargetOf(a))
  {
    SameMembers(s, a, s1);
    ActsOnTarget(s1, a, o, w, ok, s2);
  }

  lemma BystandersRestarted(s: State, plan: seq<Action>, j: nat, s1: State, s2: State, w: string -> Outcome)
    requires j < |plan| && BystandersAt(s, plan, j, j, s1, w)
    requires forall n :: n in s2.processes <==> n in s1.processes
    requires forall n :: n in s1.processes ==> SlotOf(s2, n) == RestartSlot(SlotOf(s1, n), true, w(n))
    ensures BystandersAt(s, plan, j, j + 1, s2, w)
  {
    forall n | Untargeted(plan, j + 1, n) ensures n in s2.processes <==> n in s.processes {
      assert Untargeted(plan, j, n);
    }
    forall n | Untargeted(plan, |plan|, n) && n in s.processes
      ensures SlotOf(s2, n) == RestartSlot(SlotOf(s, n), true, w(n))
    {
      assert Untargeted(plan, j, n);
    }
  }

  lemma BystandersLeft(s: State, plan: seq<Action>, j: nat, k: nat, s1: State, s2: State, w: string -> Outcome)
    requires k < |plan| && k != j && BystandersAt(s, plan, j, k, s1, w) && OthersKept(s1, s2, TargetOf(plan[k]))
    ensures BystandersAt(s, plan, j, k + 1, s2, w)
  {
    forall n | Untargeted(plan, k + 1, n) ensures n in s2.processes <==> n in s.processes {
      assert Untargeted(plan, k, n) && TargetOf(plan[k]) != Some(n);
      assert SlotOf(s2, n) == SlotOf(s1, n);
    }
    forall n | Untargeted(plan, |plan|, n) && n in s.processes ensures SlotOf(s2, n) == SlotOf(s1, n) {
      assert TargetOf(plan[k]) != Some(n);
    }
  }

  /** Restarting `all` successfully restarts every process, also those the plan is not
      about. */
  lemma RestartingAll(states: seq<State>, plan: seq<Action>, oks: seq<bool>, o: nat -> Outcome,
                      w: string -> Outcome, j: nat)
    requires IsExecution(states, plan, oks, o, w, |plan|) && SoundBut(states[0], plan, j) && oks[j]
    ensures BystandersAt(states[0], plan, j, |plan|, states[|plan|], w)
  {
    for k := 0 to |plan|
      invariant BystandersAfter(states, plan, j, k, w)
    {
      BystandersStep(states, plan, oks, o, w, j, k);
    }
  }

  ghost predicate BystandersAfter(states: seq<State>, plan: seq<Action>, j: nat, k: nat, w: string -> Outcome) {
    k < |states| && BystandersAt(states[0], plan, j, k, states[k], w)
  }

  lemma BystandersStep(states: seq<State>, plan: seq<Action>, oks: seq<bool>, o: nat -> Outcome, w: string -> Outcome,
                       j: nat, k: nat)
    requires IsExecution(states, plan, oks, o, w, |plan|) && k < |plan|
    requires SoundBut(states[0], plan, j) && oks[j] && BystandersAfter(states, plan, j, k, w)
    ensures BystandersAfter(states, plan, j, k + 1, w)
  {
    ActsAt(states, plan, oks, o, w, |plan|, k);
    if k == j {
      BystandersOfAll(states[0], plan, j, states[k], states[k + 1], o(k), w);
    } else {
      BystandersOfOne(states[0], plan, j, k, states[k], states[k + 1], o(k), w, oks[k]);
    }
  }

  /** The process is as it was, or was restarted: managed or not, with the same settings,
      and up if it was up. */
  ghost predicate StillThere(x: Slot, y: Slot) {
    if x.proc.None? then y.proc.None?
    else y.proc.Some? && y.proc.value.config == x.proc.value.config && (IsUp(x.proc.value) ==> IsUp(y.proc.value))
  }

  lemma RestartedRuns(x: Slot, o: Outcome)
    requires RestartOk(x, o)
    ensures Runs(RestartSlot(x, true, o), x.proc.value.config)
  {
  }

  lemma AllStillThere(s: State, o: Outcome, w: string -> Outcome, s': State)
    requires Handles(s, RestartRequested("all", o, w), true, s')
    ensures forall n :: StillThere(SlotOf(s, n), SlotOf(s', n))
    ensures forall n :: n in s.processes ==> Runs(SlotOf(s', n), s.processes[n].config)
  {
    RestartAllHandled(s, o, w, true, s');
    forall n
      ensures StillThere(SlotOf(s, n), SlotOf(s', n))
      ensures n in s.processes ==> Runs(SlotOf(s', n), s.processes[n].config)
    {
      if n in s.processes {
        RestartedRuns(SlotOf(s, n), w(n));
      }
    }
  }

  /** The first `k` actions have been tried, and none failed. */
  ghost predicate ThroughAll(s: State, plan: seq<Action>, k: nat, s': State)
    requires k <= |plan|
  {
    && (forall n :: Untargeted(plan, k, n) ==> StillThere(SlotOf(s, n), SlotOf(s', n)))
    && (forall i :: 0 <= i < k ==> Achieved(s, plan[i], s'))
  }

  lemma AchievedThere(s: State, a: Action, s1: State, s2: State)
    requires Achieved(s, a, s1) && !a.DeleteApp?
    requires forall n :: StillThere(SlotOf(s1, n), SlotOf(s2, n))
    ensures Achieved(s, a, s2)
  {
    if TargetOf(a).Some? {
      assert StillThere(SlotOf(s1, TargetOf(a).value), SlotOf(s2, TargetOf(a).value));
    }
  }

  lemma ThroughAllRestart(s: State, plan: seq<Action>, j: nat, s1: State, s2: State, o: Outcome, w: string -> Outcome)
    requires SoundBut(s, plan, j) && ThroughAll(s, plan, j, s1) && forall i :: 0 <= i < j ==> !plan[i].DeleteApp?
    requires Handles(s1, RestartRequested("all", o, w), true, s2)
    ensures ThroughAll(s, plan, j + 1, s2)
  {
    AllStillThere(s1, o, w, s2);
    assert Untargeted(plan, j, "all");
    AllIsAchieved(s, s1, s2);
    StillThereThrough(s, plan, j, s1, s2);
    AchievedThrough(s, plan, j, s1, s2);
  }

  lemma AchievedThrough(s: State, plan: seq<Action>, j: nat, s1: State, s2: State)
    requires j < |plan| && forall i :: 0 <= i < j ==> !plan[i].DeleteApp? && Achieved(s, plan[i], s1)
    requires forall n :: StillThere(SlotOf(s1, n), SlotOf(s2, n))
    requires Achieved(s, plan[j], s2)
    ensures forall i :: 0 <= i < j + 1 ==> Achieved(s, plan[i], s2)
  {
    forall i | 0 <= i < j ensures Achieved(s, plan[i], s2) {
      AchievedThere(s, plan[i], s1, s2);
    }
  }

  lemma AllIsAchieved(s: State, s1: State, s2: State)
    requires "all" in s.processes && StillThere(SlotOf(s, "all"), SlotOf(s1, "all"))
    requires forall n :: n in s1.processes ==> Runs(SlotOf(s2, n), s1.processes[n].config)
    ensures Achieved(s, RestartApp("all"), s2)
  {
    assert SlotOf(s1, "all").proc.Some?;
  }

  lemma StillThereThrough(s: State, plan: seq<Action>, j: nat, s1: State, s2: State)
    requires forall n :: Untargeted(plan, j, n) ==> StillThere(SlotOf(s, n), SlotOf(s1, n))
    requires forall n :: StillThere(SlotOf(s1, n), SlotOf(s2, n))
    ensures forall n :: Untargeted(plan, j + 1, n) ==> StillThere(SlotOf(s, n), SlotOf(s2, n))
  {
    forall n | Untargeted(plan, j + 1, n) ensures StillThere(SlotOf(s, n), SlotOf(s2, n)) {
      assert Untargeted(plan, j, n);
      assert StillThere(SlotOf(s1, n), SlotOf(s2, n));
    }
  }

  lemma AchievedSince(s: State, a: Action, s1: State, s2: State)
    requires Addresses(s, a) && Achieved(s1, a, s2)
    requires TargetOf(a).Some? ==> StillThere(SlotOf(s, TargetOf(a).value), SlotOf(s1, TargetOf(a).value))
    ensures Achieved(s, a, s2)
  {
  }

  lemma ActsSince(s: State, a: Action, s1: State, s2: State, o: Outcome, w: string -> Outcome)
    requires Addresses(s, a) && Acts(s1, a, o, w, true, s2)
    requires TargetOf(a).Some? ==> StillThere(SlotOf(s, TargetOf(a).value), SlotOf(s1, TargetOf(a).value))
    ensures OthersKept(s1, s2, TargetOf(a)) && Achieved(s, a, s2)
  {
    SameMembers(s, a, s1);
    ActsOnTarget(s1, a, o, w, true, s2);
    AchievedSince(s, a, s1, s2);
  }

  lemma ThroughAllOther(s: State, plan: seq<Action>, j: nat, k: nat, s1: State, s2: State, o: Outcome,
                        w: string -> Outcome)
    requires SoundBut(s, plan, j) && k < |plan| && k != j && ThroughAll(s, plan, k, s1)
    requires Acts(s1, plan[k], o, w, true, s2)
    ensures ThroughAll(s, plan, k + 1, s2)
  {
    if TargetOf(plan[k]).Some? {
      assert Untargeted(plan, k, TargetOf(plan[k]).value);
    }
    ActsSince(s, plan[k], s1, s2, o, w);
    ThroughAllNext(s, plan, k, s1, s2);
  }

  lemma ThroughAllNext(s: State, plan: seq<Action>, k: nat, s1: State, s2: State)
    requires TargetsDiffer(plan) && k < |plan| && ThroughAll(s, plan, k, s1)
    requires OthersKept(s1, s2, TargetOf(plan[k])) && Achieved(s, plan[k], s2)
    ensures ThroughAll(s, plan, k + 1, s2)
  {
    StillThereNext(s, plan, k, s1, s2);
    forall i | 0 <= i < k ensures Achieved(s, plan[i], s2) {
      AchievedStill(s, plan[i], plan[k], s1, s2);
    }
  }

  lemma StillThereNext(s: State, plan: seq<Action>, k: nat, s1: State, s2: State)
    requires k < |plan| && OthersKept(s1, s2, TargetOf(plan[k]))
    requires forall n :: Untargeted(plan, k, n) ==> StillThere(SlotOf(s, n), SlotOf(s1, n))
    ensures forall n :: Untargeted(plan, k + 1, n) ==> StillThere(SlotOf(s, n), SlotOf(s2, n))
  {
    forall n | Untargeted(plan, k + 1, n) ensures StillThere(SlotOf(s, n), SlotOf(s2, n)) {
      assert Untargeted(plan, k, n) && TargetOf(plan[k]) != Some(n);
      assert SlotOf(s2, n) == SlotOf(s1, n);
    }
  }

  lemma ThroughAllStep(states: seq<State>, plan: seq<Action>, oks: seq<bool>, o: nat -> Outcome, w: string -> Outcome,
                       j: nat, k: nat)
    requires IsExecution(states, plan, oks, o, w, |plan|) && k < |plan| && AllOk(oks)
    requires SoundBut(states[0], plan, j) && (forall i :: 0 <= i < j ==> !plan[i].DeleteApp?)
    requires ThroughAll(states[0], plan, k, states[k])
    ensures ThroughAll(states[0], plan, k + 1, states[k + 1])
  {
    ActsAt(states, plan, oks, o, w, |plan|, k);
    if k == j {
      ThroughAllRestart(states[0], plan, j, states[k], states[k + 1], o(k), w);
    } else {
      ThroughAllOther(states[0], plan, j, k, states[k], states[k + 1], o(k), w);
    }
  }

  /** For the processes the plan is about, restarting `all` does no harm: without a
      failure everything planned is achieved. */
  lemma RestartingAllAchieves(states: seq<State>, plan: seq<Action>, oks: seq<bool>, o: nat -> Outcome,
                              w: string -> Outcome, j: nat)
    requires IsExecution(states, plan, oks, o, w, |plan|) && AllOk(oks)
    requires SoundBut(states[0], plan, j) && forall i :: 0 <= i < j ==> !plan[i].DeleteApp?
    ensures ThroughAll(states[0], plan, |plan|, states[|plan|])
  {
    for k := 0 to |plan|
      invariant ThroughAll(states[0], plan, k, states[k])
    {
      ThroughAllStep(states, plan, oks, o, w, j, k);
    }
  }
}
