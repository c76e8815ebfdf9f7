/** Validation of a configuration (`validate_resolved_specs` in
    src/commands/validate.rs), and what it promises for `apply`. */
module Validation {
  import opened Prelude
  import opened NameSets
  import opened Domain
  import Text
  import opened Lifecycle
  import opened Apply
  import opened ApplyTheorems
  import ApplyExecution
  import ApplyOutcome

  /** Answers of libraries: does a token name a Node.js binary, does a command line
      split into at least one word, are these patterns regular expressions. */
  datatype Library = Library(
    isNode: string -> bool,
    splits: string -> bool,
    patternsOk: seq<string> -> bool)

  // ---------------------------------------------------------------------
  // One app
  // ---------------------------------------------------------------------

  predicate ClusterOk(lib: Library, c: Config) {
    if !c.clusterMode then c.clusterInstances.None?
    else lib.isNode(c.command) && c.args != [] && !(c.args[0] != "" && c.args[0][0] == '-')
  }

  predicate IsAbsolute(path: string) {
    path != "" && path[0] == '/'
  }

  predicate WatchOk(lib: Library, c: Config) {
    if !c.watch then c.watchPaths == [] && c.ignoreWatch == [] && c.watchDelaySecs == 0
    else
      && (c.cwd.None? ==> c.watchPaths != [] && forall i :: 0 <= i < |c.watchPaths| ==> IsAbsolute(c.watchPaths[i]))
      && (c.ignoreWatch != [] ==> lib.patternsOk(c.ignoreWatch))
  }

  predicate ReadinessOk(c: Config) {
    (c.waitReady ==> c.healthCheck.Some?) && c.readyTimeoutSecs != 0
  }

  predicate CommandsOk(lib: Library, app: AppSpec) {
    && app.parses
    && (app.config.healthCheck.Some? ==> lib.splits(app.config.healthCheck.value.command))
    && (app.config.preReloadCmd.Some? ==> lib.splits(app.config.preReloadCmd.value))
  }

  predicate AppOk(lib: Library, app: AppSpec) {
    CommandsOk(lib, app) && ClusterOk(lib, app.config) && WatchOk(lib, app.config) && ReadinessOk(app.config)
  }

  // ---------------------------------------------------------------------
  // Names
  // ---------------------------------------------------------------------

  function BaseNames(apps: seq<AppSpec>): seq<string> {
    if apps == [] then []
    else BaseNames(apps[..|apps| - 1]) + if Last(apps).name.Some? then [Last(apps).name.value] else []
  }

  function Last(apps: seq<AppSpec>): AppSpec
    requires apps != []
  {
    apps[|apps| - 1]
  }

  /** The names an app's instances run under; an unnamed app reserves none. */
  function InstanceNames(app: AppSpec): (r: seq<string>)
    ensures app.name.None? ==> r == []
    ensures app.name.Some? ==> |r| == AtLeastOne(app.instances)
                               && forall i :: 0 <= i < |r| ==> r[i] == Instance(app, i).name.value
  {
    if app.name.None? then []
    else if app.instances <= 1 then [app.name.value]
    else seq(app.instances, i requires 0 <= i => app.name.value + "-" + Text.Decimal(i))
  }

  function ExpandedNames(apps: seq<AppSpec>): seq<string> {
    if apps == [] then [] else ExpandedNames(apps[..|apps| - 1]) + InstanceNames(Last(apps))
  }

  predicate DependenciesKnown(apps: seq<AppSpec>, app: AppSpec) {
    forall i :: 0 <= i < |app.dependsOn| ==> app.dependsOn[i] in BaseNames(apps)
  }

  /** What validation accepts. */
  ghost predicate Valid(lib: Library, apps: seq<AppSpec>) {
    && apps != []
    && (forall i :: 0 <= i < |apps| ==> AppOk(lib, apps[i]))
    && NoDuplicates(BaseNames(apps))
    && (forall i :: 0 <= i < |apps| ==> DependenciesKnown(apps, apps[i]))
    && NoDuplicates(ExpandedNames(apps))
  }

  function TotalInstances(apps: seq<AppSpec>): nat {
    if apps == [] then 0 else TotalInstances(apps[..|apps| - 1]) + AtLeastOne(Last(apps).instances)
  }

  function Unnamed(apps: seq<AppSpec>): nat {
    if apps == [] then 0 else Unnamed(apps[..|apps| - 1]) + if Last(apps).name.None? then 1 else 0
  }

  // ---------------------------------------------------------------------
  // The program
  // ---------------------------------------------------------------------

  datatype ValidationError = NoApps | BadApp | DuplicateApp(name: string) | UnknownDependency(name: string) | DuplicateProcess(name: string)

  datatype ValidationReport = ValidationReport(apps: nat, processes: nat, unnamed: nat)

  lemma {:induction false} PrefixOfNames(apps: seq<AppSpec>, k: nat)
    requires k <= |apps|
    ensures BaseNames(apps[..k]) <= BaseNames(apps)
    ensures ExpandedNames(apps[..k]) <= ExpandedNames(apps)
    decreases |apps|
  {
    if k < |apps| {
      assert apps[..|apps| - 1][..k] == apps[..k];
      PrefixOfNames(apps[..|apps| - 1], k);
    } else {
      assert apps[..k] == apps;
    }
  }

  lemma PrefixHasDuplicates(a: seq<string>, b: seq<string>)
    requires a <= b && !NoDuplicates(a)
    ensures !NoDuplicates(b)
  {
  }

  method CheckCluster(lib: Library, c: Config) returns (ok: bool)
    ensures ok <==> ClusterOk(lib, c)
  {
    if !c.clusterMode {
      return c.clusterInstances.None?;
    }
    if !lib.isNode(c.command) {
      return false;
    }
    if |c.args| < 1 {
      return false;
    }
    var script := c.args[0];
    return script == "" || script[0] != '-';
  }

  method CheckWatch(lib: Library, c: Config) returns (ok: bool)
    ensures ok <==> WatchOk(lib, c)
  {
    if !c.watch {
      return |c.watchPaths| == 0 && |c.ignoreWatch| == 0 && !(c.watchDelaySecs > 0);
    }
    if |c.watchPaths| == 0 && c.cwd.None? {
      return false;
    }
    if c.cwd.None? {
      for i := 0 to |c.watchPaths|
        invariant forall j :: 0 <= j < i ==> IsAbsolute(c.watchPaths[j])
      {
        var path := c.watchPaths[i];
        if |path| == 0 || path[0] != '/' {
          return false;
        }
      }
    }
    return |c.ignoreWatch| == 0 || lib.patternsOk(c.ignoreWatch);
  }

  method CheckReadiness(c: Config) returns (ok: bool)
    ensures ok <==> ReadinessOk(c)
  {
    if c.waitReady && c.healthCheck.None? {
      return false;
    }
    return c.readyTimeoutSecs > 0;
  }

  method CheckCommands(lib: Library, app: AppSpec) returns (ok: bool)
    ensures ok <==> CommandsOk(lib, app)
  {
    if !app.parses {
      return false;
    }
    match app.config.healthCheck {
      case Some(check) =>
        if !lib.splits(check.command) {
          return false;
        }
      case None =>
    }
    match app.config.preReloadCmd {
      case Some(command) => return lib.splits(command);
      case None => return true;
    }
  }

  method CheckApp(lib: Library, app: AppSpec) returns (ok: bool)
    ensures ok <==> AppOk(lib, app)
  {
    ok := CheckCommands(lib, app);
    if ok {
      ok := CheckCluster(lib, app.config);
    }
    if ok {
      ok := CheckWatch(lib, app.config);
    }
    if ok {
      ok := CheckReadiness(app.config);
    }
  }

  method CheckApps(lib: Library, apps: seq<AppSpec>) returns (r: Result<(set<string>, nat), ValidationError>)
    ensures r.Ok? <==> (forall i :: 0 <= i < |apps| ==> AppOk(lib, apps[i])) && NoDuplicates(BaseNames(apps))
    ensures r.Ok? ==> Seen(r.value.0, BaseNames(apps)) && r.value.1 == Unnamed(apps)
  {
    var named: set<string> := {};
    var unnamed := 0;
    for k := 0 to |apps|
      invariant forall i :: 0 <= i < k ==> AppOk(lib, apps[i])
      invariant Seen(named, BaseNames(apps[..k])) && unnamed == Unnamed(apps[..k])
    {
      var app := apps[k];
      var ok := CheckApp(lib, app);
      if !ok {
        return Err(BadApp);
      }
      assert apps[..k + 1][..k] == apps[..k] && Last(apps[..k + 1]) == app;
      if app.name.Some? {
        var inserted := InsertAll(named, [app.name.value], BaseNames(apps[..k]));
        if inserted.Err? {
          PrefixOfNames(apps, k + 1);
          PrefixHasDuplicates(BaseNames(apps[..k + 1]), BaseNames(apps));
          return Err(DuplicateApp(inserted.error));
        }
        named := inserted.value;
      } else {
        assert BaseNames(apps[..k + 1]) == BaseNames(apps[..k]);
        unnamed := unnamed + 1;
      }
    }
    assert apps[..|apps|] == apps;
    return Ok((named, unnamed));
  }

  method CheckDependencies(apps: seq<AppSpec>, named: set<string>) returns (unknown: Option<string>)
    requires Seen(named, BaseNames(apps))
    ensures unknown.None? <==> forall i :: 0 <= i < |apps| ==> DependenciesKnown(apps, apps[i])
  {
    for k := 0 to |apps|
      invariant forall i :: 0 <= i < k ==> DependenciesKnown(apps, apps[i])
    {
      var deps := apps[k].dependsOn;
      for d := 0 to |deps|
        invariant forall i :: 0 <= i < d ==> deps[i] in BaseNames(apps)
      {
        if deps[d] !in named {
          return Some(deps[d]);
        }
      }
    }
    return None;
  }

  method CheckExpansion(apps: seq<AppSpec>) returns (r: Result<nat, string>)
    ensures r.Ok? <==> NoDuplicates(ExpandedNames(apps))
    ensures r.Ok? ==> r.value == TotalInstances(apps)
  {
    var expanded: set<string> := {};
    var count := 0;
    for k := 0 to |apps|
      invariant Seen(expanded, ExpandedNames(apps[..k])) && count == TotalInstances(apps[..k])
    {
      assert apps[..k + 1][..k] == apps[..k] && Last(apps[..k + 1]) == apps[k];
      count := count + AtLeastOne(apps[k].instances);
      var inserted := InsertAll(expanded, InstanceNames(apps[k]), ExpandedNames(apps[..k]));
      if inserted.Err? {
        PrefixOfNames(apps, k + 1);
        PrefixHasDuplicates(ExpandedNames(apps[..k + 1]), ExpandedNames(apps));
        return Err(inserted.error);
      }
      expanded := inserted.value;
    }
    assert apps[..|apps|] == apps;
    return Ok(count);
  }

  method ValidateResolvedSpecs(lib: Library, apps: seq<AppSpec>) returns (r: Result<ValidationReport, ValidationError>)
    ensures r.Ok? <==> Valid(lib, apps)
    ensures r.Ok? ==> r.value == ValidationReport(|apps|, TotalInstances(apps), Unnamed(apps))
  {
    if apps == [] {
      return Err(NoApps);
    }
    var checked := CheckApps(lib, apps);
    if checked.Err? {
      return Err(checked.error);
    }
    var unknown := CheckDependencies(apps, checked.value.0);
    if unknown.Some? {
      return Err(UnknownDependency(unknown.value));
    }
    var count := CheckExpansion(apps);
    if count.Err? {
      return Err(DuplicateProcess(count.error));
    }
    return Ok(ValidationReport(|apps|, count.value, checked.value.1));
  }

  // ---------------------------------------------------------------------
  // What validation promises
  // ---------------------------------------------------------------------

  lemma {:induction false} ExpandedNamesOf(apps: seq<AppSpec>)
    requires AllNamed(apps)
    ensures |Expanded(apps)| == |ExpandedNames(apps)| == TotalInstances(apps)
    ensures forall i :: 0 <= i < |Expanded(apps)| ==> Expanded(apps)[i].name.value == ExpandedNames(apps)[i]
  {
    if apps != [] {
      var k := |apps| - 1;
      ExpandedNamesOf(apps[..k]);
      var instances, names := Instances(apps[k]), InstanceNames(apps[k]);
      assert Expanded(apps) == Expanded(apps[..k]) + instances;
      assert ExpandedNames(apps) == ExpandedNames(apps[..k]) + names;
      assert forall i :: 0 <= i < |instances| ==> instances[i].name.value == names[i];
    }
  }

  lemma NoDuplicatesIff(names: seq<string>)
    ensures NoDuplicates(names) <==> forall n :: multiset(names)[n] <= 1
  {
    if NoDuplicates(names) {
      forall n ensures multiset(names)[n] <= 1 {
        AtMostOnce(names, n);
      }
    }
    if forall n :: multiset(names)[n] <= 1 {
      forall i, j | 0 <= i < j < |names| ensures names[i] != names[j] {
        DifferentIfOnce(names, i, j);
      }
    }
  }

  lemma {:induction false} AtMostOnce(names: seq<string>, n: string)
    requires NoDuplicates(names)
    ensures multiset(names)[n] <= 1
  {
    if names != [] {
      var k := |names| - 1;
      AtMostOnce(names[..k], n);
      assert names == names[..k] + [names[k]];
      if n == names[k] {
        assert n !in names[..k];
      }
    }
  }

  lemma NamesOneMore(apps: seq<AppSpec>, x: AppSpec)
    ensures multiset(ExpandedNames(apps + [x])) == multiset(ExpandedNames(apps)) + multiset(InstanceNames(x))
  {
    assert (apps + [x])[..|apps|] == apps;
  }

  lemma {:induction false} NamesWithout(a: seq<AppSpec>, x: AppSpec, b: seq<AppSpec>)
    ensures multiset(ExpandedNames(a + [x] + b)) == multiset(ExpandedNames(a + b)) + multiset(InstanceNames(x))
  {
    if b == [] {
      assert a + [x] + b == a + [x] && a + b == a;
      NamesOneMore(a, x);
    } else {
      var k := |b| - 1;
      NamesWithout(a, x, b[..k]);
      NamesOneMore(a + [x] + b[..k], b[k]);
      NamesOneMore(a + b[..k], b[k]);
      LastApart(a + [x], b);
      LastApart(a, b);
    }
  }

  lemma LastApart(a: seq<AppSpec>, b: seq<AppSpec>)
    requires b != []
    ensures a + b == a + b[..|b| - 1] + [b[|b| - 1]]
  {
  }

  lemma {:induction false} NamesPermuted(apps: seq<AppSpec>, ordered: seq<AppSpec>)
    requires multiset(apps) == multiset(ordered)
    ensures multiset(ExpandedNames(apps)) == multiset(ExpandedNames(ordered))
  {
    assert |apps| == |multiset(apps)| == |multiset(ordered)| == |ordered|;
    if apps != [] {
      var k := |apps| - 1;
      assert apps[k] in multiset(ordered);
      var j :| 0 <= j < |ordered| && ordered[j] == apps[k];
      var a, b := ordered[..j], ordered[j + 1..];
      assert ordered == a + [apps[k]] + b && apps == apps[..k] + [apps[k]];
      RemovedAlike(apps[..k], apps[k], a, b);
      NamesPermuted(apps[..k], a + b);
      NamesWithout(a, apps[k], b);
    }
  }

  lemma RemovedAlike<T>(s: seq<T>, x: T, a: seq<T>, b: seq<T>)
    requires multiset(s + [x]) == multiset(a + [x] + b)
    ensures multiset(s) == multiset(a + b)
  {
    assert multiset(s) == multiset(s + [x]) - multiset{x};
    assert multiset(a + b) == multiset(a + [x] + b) - multiset{x};
  }

  /** A validated configuration of named apps is accepted by `apply` in whatever order
      its apps are put, the start order among them. */
  lemma ValidIsAccepted(lib: Library, apps: seq<AppSpec>, ordered: seq<AppSpec>)
    requires Valid(lib, apps) && AllNamed(apps) && multiset(ordered) == multiset(apps)
    ensures AllNamed(ordered) && Distinct(Expanded(ordered)) && |Expanded(ordered)| == TotalInstances(ordered)
  {
    forall i | 0 <= i < |ordered| ensures ordered[i].name.Some? {
      assert ordered[i] in multiset(apps);
      var j :| 0 <= j < |apps| && apps[j] == ordered[i];
    }
    NamesPermuted(apps, ordered);
    NoDuplicatesIff(ExpandedNames(apps));
    NoDuplicatesIff(ExpandedNames(ordered));
    ExpandedNamesOf(ordered);
  }

  lemma {:induction false} ExpandedFrom(apps: seq<AppSpec>, i: nat) returns (k: nat, idx: nat)
    requires AllNamed(apps) && i < |Expanded(apps)|
    ensures k < |apps| && Expanded(apps)[i] == Instance(apps[k], idx)
  {
    var last := |apps| - 1;
    if i < |Expanded(apps[..last])| {
      k, idx := ExpandedFrom(apps[..last], i);
    } else {
      k, idx := last, i - |Expanded(apps[..last])|;
    }
  }

  lemma ValidIsStoredIff(lib: Library, app: AppSpec, idx: nat)
    requires AppOk(lib, app) && app.name.Some?
    ensures StoredAsIs(Instance(app, idx).config) <==> Instance(app, idx).config.clusterInstances != Some(0)
  {
  }

  /** Zero cluster instances are the one setting the daemon replaces that validation
      lets pass. */
  lemma ExpandedIsStoredIff(lib: Library, apps: seq<AppSpec>, ordered: seq<AppSpec>, i: nat)
    requires Valid(lib, apps) && AllNamed(ordered) && multiset(ordered) == multiset(apps) && i < |Expanded(ordered)|
    ensures StoredAsIs(Expanded(ordered)[i].config) <==> Expanded(ordered)[i].config.clusterInstances != Some(0)
  {
    var k, idx := ExpandedFrom(ordered, i);
    assert ordered[k] in multiset(apps);
    var j :| 0 <= j < |apps| && apps[j] == ordered[k];
    ValidIsStoredIff(lib, apps[j], idx);
  }

  /** Validation and `apply` together: a validated configuration, once applied without a
      failure, is left alone by the next `apply` exactly when no process asks for zero
      cluster instances, other than with settings the daemon already had. (The loaders
      replace the zero.) */
  lemma ValidConvergesIff(lib: Library, apps: seq<AppSpec>, ordered: seq<AppSpec>, s: State, prune: bool, s': State)
    requires Valid(lib, apps) && AllNamed(apps) && multiset(ordered) == multiset(apps)
    requires AllNamed(ordered) && ApplyOutcome.Converged(s, Expanded(ordered), prune, s')
    ensures NothingToDo(Plan(Listed(s'), Expanded(ordered), prune))
            <==> NoNewZeroCluster(s, Expanded(ordered))
  {
    ValidIsAccepted(lib, apps, ordered);
    var desired := Expanded(ordered);
    forall i | 0 <= i < |desired|
      ensures StoredAsIs(desired[i].config) <==> desired[i].config.clusterInstances != Some(0)
    {
      ExpandedIsStoredIff(lib, apps, ordered, i);
    }
    SettleIffNoZero(s, desired);
    ApplyOutcome.ConvergesIff(s, desired, prune, s');
  }

  ghost predicate NoNewZeroCluster(s: State, desired: seq<StartRequest>)
    requires Named(desired)
  {
    forall i :: 0 <= i < |desired| && desired[i].config.clusterInstances == Some(0) ==> HasSettings(s, desired[i])
  }

  lemma SettleIffNoZero(s: State, desired: seq<StartRequest>)
    requires Named(desired)
    requires forall i :: 0 <= i < |desired| ==>
                           (StoredAsIs(desired[i].config) <==> desired[i].config.clusterInstances != Some(0))
    ensures ApplyOutcome.AllSettle(s, desired) <==> NoNewZeroCluster(s, desired)
  {
    forall i | 0 <= i < |desired|
      ensures ApplyOutcome.Settles(s, desired[i]) <==> (desired[i].config.clusterInstances == Some(0) ==> HasSettings(s, desired[i]))
    {
    }
  }

  // ---------------------------------------------------------------------
  // When a validated configuration is applied without a failure
  // ---------------------------------------------------------------------

  /** Processes to be started or recreated have names the daemon accepts. */
  ghost predicate NewNamesValid(s: State, desired: seq<StartRequest>)
    requires Named(desired)
  {
    forall i :: 0 <= i < |desired| && !HasSettings(s, desired[i]) ==> ValidName(desired[i].name.value)
  }

  /** Validation checks command lines, but not names. In an environment that never fails,
      applying a validated configuration is flawless exactly when the daemon accepts the
      names of all processes it has to start or recreate. */
  lemma ValidSucceedsIff(lib: Library, apps: seq<AppSpec>, ordered: seq<AppSpec>, states: seq<State>, prune: bool,
                         oks: seq<bool>, o: nat -> Outcome, w: string -> Outcome)
    requires Valid(lib, apps) && AllNamed(apps) && multiset(ordered) == multiset(apps) && AllNamed(ordered)
    requires states != []
    requires var plan := Plan(Listed(states[0]), Expanded(ordered), prune);
             ApplyExecution.IsExecution(states, plan, oks, o, w, |plan|)
    requires ApplyOutcome.Harmless(states[0], Expanded(ordered), prune) && ApplyOutcome.Willing(o)
    ensures ApplyExecution.AllOk(oks) <==> NewNamesValid(states[0], Expanded(ordered))
  {
    var s, desired := states[0], Expanded(ordered);
    ValidIsAccepted(lib, apps, ordered);
    ApplyOutcome.FlawlessIff(states, desired, prune, Plan(Listed(s), desired, prune), oks, o, w);
    forall i | 0 <= i < |desired| ensures ApplyExecution.Startable(desired[i]) <==> ValidName(desired[i].name.value) {
      ExpandedParses(lib, apps, ordered, i);
    }
  }

  lemma ExpandedParses(lib: Library, apps: seq<AppSpec>, ordered: seq<AppSpec>, i: nat)
    requires Valid(lib, apps) && AllNamed(ordered) && multiset(ordered) == multiset(apps) && i < |Expanded(ordered)|
    ensures Expanded(ordered)[i].parses
  {
    var k, idx := ExpandedFrom(ordered, i);
    assert ordered[k] in multiset(apps);
    var j :| 0 <= j < |apps| && apps[j] == ordered[k];
    assert AppOk(lib, apps[j]);
  }
}
