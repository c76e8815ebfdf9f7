/** Declarative apply (src/commands/apply.rs): planning the actions that turn the
    managed processes into the desired ones. */
module Apply {
  import opened Prelude
  import NameSets
  import opened Domain
  import Text
  import Sorting
  import opened Lifecycle
  import opened Daemon
  import Fingerprint

  datatype Action =
    | StartApp(spec: StartRequest)
    | RestartApp(name: string)
    | Recreate(spec: StartRequest)
    | DeleteApp(name: string)
    | Noop

  // ---------------------------------------------------------------------
  // What is desired
  // ---------------------------------------------------------------------

  predicate Named(desired: seq<StartRequest>) {
    forall i :: 0 <= i < |desired| ==> desired[i].name.Some?
  }

  predicate Distinct(desired: seq<StartRequest>)
    requires Named(desired)
  {
    forall i, j :: 0 <= i < j < |desired| ==> desired[i].name.value != desired[j].name.value
  }

  function NamesOf(desired: seq<StartRequest>): (names: set<string>)
    requires Named(desired)
    ensures forall i :: 0 <= i < |desired| ==> desired[i].name.value in names
  {
    set i | 0 <= i < |desired| :: desired[i].name.value
  }

  /** An app of a configuration file, before its instances are spelled out. */
  datatype AppSpec = AppSpec(
    name: Option<string>,
    dependsOn: seq<string>,
    instances: nat,
    instanceVar: Option<string>,
    parses: bool,
    config: Config,
    logs: Logs)

  const DEFAULT_INSTANCE_VAR := "NODE_APP_INSTANCE"

  /** The `idx`-th instance of an app. Several instances are told apart by a suffix
      and by a variable in their environment. */
  function Instance(app: AppSpec, idx: nat): StartRequest
    requires app.name.Some?
  {
    var config := app.config.(stopTimeoutSecs := AtLeastOne(app.config.stopTimeoutSecs));
    if app.instances <= 1 then
      StartRequest(app.parses, app.name, app.name.value, config, app.logs)
    else
      var env := config.env[app.instanceVar.GetOr(DEFAULT_INSTANCE_VAR) := Text.Decimal(idx)];
      StartRequest(app.parses, Some(app.name.value + "-" + Text.Decimal(idx)), app.name.value, config.(env := env), app.logs)
  }

  function Instances(app: AppSpec): (r: seq<StartRequest>)
    requires app.name.Some?
    ensures |r| == AtLeastOne(app.instances)
    ensures forall i :: 0 <= i < |r| ==> r[i] == Instance(app, i) && r[i].name.Some?
  {
    seq(AtLeastOne(app.instances), i requires 0 <= i => Instance(app, i))
  }

  predicate AllNamed(apps: seq<AppSpec>) {
    forall i :: 0 <= i < |apps| ==> apps[i].name.Some?
  }

  function Expanded(apps: seq<AppSpec>): (r: seq<StartRequest>)
    requires AllNamed(apps)
    ensures Named(r)
  {
    if apps == [] then [] else Expanded(apps[..|apps| - 1]) + Instances(apps[|apps| - 1])
  }

  /** Instances of one app never clash with each other. */
  lemma InstancesAreDistinct(app: AppSpec)
    requires app.name.Some?
    ensures Distinct(Instances(app))
  {
    forall i, j | 0 <= i < j < AtLeastOne(app.instances)
      ensures Instance(app, i).name.value != Instance(app, j).name.value
    {
      if Instance(app, i).name == Instance(app, j).name {
        var stem := app.name.value + "-";
        assert Text.Decimal(i) == (stem + Text.Decimal(i))[|stem|..] && Text.Decimal(j) == (stem + Text.Decimal(j))[|stem|..];
        Text.DecimalInjective(i, j);
        assert false;
      }
    }
  }

  // ---------------------------------------------------------------------
  // What an instance is
  // ---------------------------------------------------------------------

  /** How many processes an app stands for. */
  function Count(app: AppSpec): nat {
    if app.instances == 0 then 1 else app.instances
  }

  /** The variable that tells an app's instances apart. */
  function VariableOf(app: AppSpec): string {
    match app.instanceVar
    case Some(v) => v
    case None => "NODE_APP_INSTANCE"
  }

  /** The `idx`-th process of an app: its settings, a stop timeout of at least a second,
      and, if there are several, a number in its name and in its environment. */
  ghost predicate IsInstance(app: AppSpec, idx: nat, r: StartRequest)
    requires app.name.Some?
  {
    && r.parses == app.parses && r.logs == app.logs && r.stem == app.name.value
    && r.config == app.config.(stopTimeoutSecs := r.config.stopTimeoutSecs, env := r.config.env)
    && r.config.stopTimeoutSecs == (if app.config.stopTimeoutSecs == 0 then 1 else app.config.stopTimeoutSecs)
    && (app.instances <= 1 ==> r.name == app.name && r.config.env == app.config.env)
    && (app.instances > 1 ==> r.name.Some? && NumberedName(app, idx, r.name.value) && Numbered(app, idx, r.config.env))
  }

  ghost predicate NumberedName(app: AppSpec, idx: nat, name: string)
    requires app.name.Some?
  {
    && |app.name.value| < |name| && name[..|app.name.value|] == app.name.value && name[|app.name.value|] == '-'
    && Spells(name[|app.name.value| + 1..], idx)
  }

  /** The app's environment, with the number of the instance in its variable. */
  ghost predicate Numbered(app: AppSpec, idx: nat, env: map<string, string>) {
    && VariableOf(app) in env && Spells(env[VariableOf(app)], idx)
    && (forall k :: k != VariableOf(app) ==> (k in env <==> k in app.config.env))
    && (forall k :: k in env && k != VariableOf(app) ==> env[k] == app.config.env[k])
  }

  /** The digits of a number, without leading zeros. */
  ghost predicate Spells(s: string, n: nat) {
    && s != "" && Text.AllDigits(s) && Text.DecimalValue(s) == n && (s[0] == '0' ==> s == "0")
  }

  lemma InstanceIsInstance(app: AppSpec, idx: nat)
    requires app.name.Some?
    ensures IsInstance(app, idx, Instance(app, idx))
  {
    Text.DecimalIsCanonical(idx);
    if app.instances > 1 {
      var stem := app.name.value;
      assert (stem + "-" + Text.Decimal(idx))[|stem| + 1..] == Text.Decimal(idx);
    }
  }

  /** Where the processes of the `k`-th app begin. */
  function Offset(apps: seq<AppSpec>, k: nat): nat
    requires k <= |apps|
  {
    if k == 0 then 0 else Offset(apps, k - 1) + Count(apps[k - 1])
  }

  /** All processes of all apps, in their order. */
  ghost predicate AreInstances(apps: seq<AppSpec>, r: seq<StartRequest>)
    requires AllNamed(apps)
  {
    && |r| == Offset(apps, |apps|)
    && forall k, idx :: 0 <= k < |apps| && 0 <= idx < Count(apps[k]) ==> HoldsAt(apps, k, idx, r)
  }

  ghost predicate HoldsAt(apps: seq<AppSpec>, k: nat, idx: nat, r: seq<StartRequest>)
    requires AllNamed(apps) && k < |apps|
  {
    Offset(apps, k) + idx < |r| && IsInstance(apps[k], idx, r[Offset(apps, k) + idx])
  }

  lemma {:induction false} OffsetOfPrefix(apps: seq<AppSpec>, m: nat, k: nat)
    requires k <= m <= |apps|
    ensures Offset(apps[..m], k) == Offset(apps, k)
  {
    if k > 0 {
      OffsetOfPrefix(apps, m, k - 1);
    }
  }

  /** The expansion holds each instance in its place. */
  lemma {:induction false} ExpandedAt(apps: seq<AppSpec>, k: nat, idx: nat)
    requires AllNamed(apps) && k < |apps| && idx < Count(apps[k])
    ensures |Expanded(apps)| == Offset(apps, |apps|) && Offset(apps, k) + idx < |Expanded(apps)|
    ensures Expanded(apps)[Offset(apps, k) + idx] == Instance(apps[k], idx)
  {
    var last := |apps| - 1;
    ExpandedLength(apps);
    ExpandedLength(apps[..last]);
    OffsetOfPrefix(apps, last, last);
    if k < last {
      OffsetOfPrefix(apps, last, k);
      ExpandedAt(apps[..last], k, idx);
    }
  }

  lemma {:induction false} ExpandedLength(apps: seq<AppSpec>)
    requires AllNamed(apps)
    ensures |Expanded(apps)| == Offset(apps, |apps|)
  {
    if apps != [] {
      var last := |apps| - 1;
      ExpandedLength(apps[..last]);
      OffsetOfPrefix(apps, last, last);
    }
  }

  lemma ExpandedAreInstances(apps: seq<AppSpec>)
    requires AllNamed(apps)
    ensures AreInstances(apps, Expanded(apps))
  {
    ExpandedLength(apps);
    forall k, idx | 0 <= k < |apps| && 0 <= idx < Count(apps[k]) ensures HoldsAt(apps, k, idx, Expanded(apps)) {
      ExpandedAt(apps, k, idx);
      InstanceIsInstance(apps[k], idx);
    }
  }

  /** Two instances of one app are told apart by their variable, and by their names. */
  lemma InstancesDiffer(app: AppSpec, i: nat, j: nat, a: StartRequest, b: StartRequest)
    requires app.name.Some? && app.instances > 1 && i != j && IsInstance(app, i, a) && IsInstance(app, j, b)
    ensures a.name != b.name
    ensures a.config.env[VariableOf(app)] != b.config.env[VariableOf(app)]
  {
  }

  datatype ExpandError = MissingName | DuplicateName(name: string)

  method ExpandSpecs(apps: seq<AppSpec>) returns (r: Result<seq<StartRequest>, ExpandError>)
    ensures r.Ok? <==> AllNamed(apps)
    ensures r.Ok? ==> r.value == Expanded(apps) && AreInstances(apps, r.value)
    ensures r.Err? ==> r.error == MissingName
  {
    var expanded: seq<StartRequest> := [];
    for k := 0 to |apps|
      invariant AllNamed(apps[..k]) && expanded == Expanded(apps[..k])
    {
      if apps[k].name.None? {
        return Err(MissingName);
      }
      assert apps[..k + 1][..k] == apps[..k];
      ghost var before := expanded;
      var instances := Instances(apps[k]);
      for idx := 0 to |instances|
        invariant expanded == before + instances[..idx]
      {
        expanded := expanded + [instances[idx]];
      }
      assert instances[..|instances|] == instances;
    }
    assert apps[..|apps|] == apps;
    ExpandedAreInstances(apps);
    return Ok(expanded);
  }

  function NameList(desired: seq<StartRequest>): (r: seq<string>)
    requires Named(desired)
    ensures |r| == |desired| && forall i :: 0 <= i < |r| ==> r[i] == desired[i].name.value
  {
    seq(|desired|, i requires 0 <= i < |desired| => desired[i].name.value)
  }

  /** The desired processes are accepted exactly when every app is named and no two
      instances end up with the same name. */
  method ExpandSpecsForApply(apps: seq<AppSpec>) returns (r: Result<seq<StartRequest>, ExpandError>)
    ensures r.Ok? <==> AllNamed(apps) && Distinct(Expanded(apps))
    ensures r.Ok? ==> r.value == Expanded(apps) && AreInstances(apps, r.value)
    ensures r.Err? && r.error.DuplicateName? ==> AllNamed(apps) && r.error.name in NamesOf(Expanded(apps))
  {
    r := ExpandSpecs(apps);
    if r.Err? {
      return;
    }
    var duplicate := FindDuplicate(r.value);
    if duplicate.Some? {
      return Err(DuplicateName(duplicate.value));
    }
  }

  method FindDuplicate(desired: seq<StartRequest>) returns (duplicate: Option<string>)
    requires Named(desired)
    ensures duplicate.None? <==> Distinct(desired)
    ensures duplicate.Some? ==> duplicate.value in NamesOf(desired)
  {
    var names := NameList(desired);
    assert [] + names == names;
    var seen := NameSets.InsertAll({}, names, []);
    duplicate := if seen.Err? then Some(seen.error) else None;
  }

  // ---------------------------------------------------------------------
  // The plan
  // ---------------------------------------------------------------------

  /** The listed processes by name; of two under one name the later one stays. */
  function ByName(current: seq<Sent>): map<string, Sent> {
    if current == [] then map[]
    else ByName(current[..|current| - 1])[current[|current| - 1].process.name := current[|current| - 1]]
  }

  /** The comparison used with daemons that send no fingerprint: every setting that
      is sent, except those added to the settings later. */
  predicate SameShown(existing: Config, desired: Config) {
    existing.(env := desired.env, pullSecretHash := desired.pullSecretHash, logDateFormat := desired.logDateFormat,
              unifiedLogs := desired.unifiedLogs, cronRestart := desired.cronRestart) == desired
  }

  ghost predicate Matches(existing: Sent, r: StartRequest) {
    if existing.fingerprint != "" then existing.fingerprint == Fingerprint.Payload(r.config)
    else r.parses && SameShown(existing.process.config, r.config)
  }

  ghost function ActionFor(current: map<string, Sent>, r: StartRequest): (a: Action)
    requires r.name.Some?
    ensures a in {StartApp(r), Recreate(r), RestartApp(r.name.value), Noop}
    ensures a == StartApp(r) <==> r.name.value !in current
  {
    var name := r.name.value;
    if name !in current then StartApp(r)
    else if !Matches(current[name], r) then Recreate(r)
    else if IsUp(current[name].process) then Noop
    else RestartApp(name)
  }

  ghost function DesiredActions(current: map<string, Sent>, desired: seq<StartRequest>): (r: seq<Action>)
    requires Named(desired)
    ensures |r| == |desired| && forall i :: 0 <= i < |r| ==> r[i] == ActionFor(current, desired[i])
  {
    seq(|desired|, i requires 0 <= i < |desired| => ActionFor(current, desired[i]))
  }

  function Deletions(names: seq<string>): (r: seq<Action>)
    ensures |r| == |names| && forall i :: 0 <= i < |r| ==> r[i] == DeleteApp(names[i])
  {
    seq(|names|, i requires 0 <= i < |names| => DeleteApp(names[i]))
  }

  ghost function Plan(current: map<string, Sent>, desired: seq<StartRequest>, prune: bool): seq<Action>
    requires Named(desired)
  {
    DesiredActions(current, desired)
    + if prune then Deletions(Fingerprint.SortedKeys(current.Keys - NamesOf(desired))) else []
  }

  method ProcessMatchesSpec(existing: Sent, r: StartRequest) returns (matches: bool)
    ensures matches == Matches(existing, r)
  {
    if existing.fingerprint != "" {
      var wanted := Fingerprint.BuildPayload(r.config);
      return existing.fingerprint == wanted;
    }
    return r.parses && SameShown(existing.process.config, r.config);
  }

  method PlanOne(current: map<string, Sent>, r: StartRequest) returns (a: Action)
    requires r.name.Some?
    ensures a == ActionFor(current, r)
  {
    var name := r.name.value;
    if name !in current {
      return StartApp(r);
    }
    var matches := ProcessMatchesSpec(current[name], r);
    if !matches {
      return Recreate(r);
    }
    return if IsUp(current[name].process) then Noop else RestartApp(name);
  }

  method StaleNames(current: map<string, Sent>, wanted: set<string>) returns (stale: seq<string>)
    ensures stale == Fingerprint.SortedKeys(current.Keys - wanted)
  {
    var names := map n | n in current && n !in wanted :: n;
    var listing := Fingerprint.ListKeys(names);
    assert names.Keys == current.Keys - wanted;
    stale := Sorting.SortStrings(listing);
    Sorting.SortedIsCanonical(listing, Fingerprint.Listing(current.Keys - wanted));
  }

  method PlanApplyActions(current: seq<Sent>, desired: seq<StartRequest>, prune: bool) returns (actions: seq<Action>)
    requires Named(desired)
    ensures actions == Plan(ByName(current), desired, prune)
  {
    var byName: map<string, Sent> := map[];
    for k := 0 to |current|
      invariant byName == ByName(current[..k])
    {
      assert current[..k + 1][..k] == current[..k];
      byName := byName[current[k].process.name := current[k]];
    }
    assert current[..|current|] == current;
    actions := [];
    for k := 0 to |desired|
      invariant |actions| == k && forall i :: 0 <= i < k ==> actions[i] == ActionFor(byName, desired[i])
    {
      var a := PlanOne(byName, desired[k]);
      actions := actions + [a];
    }
    assert actions == DesiredActions(byName, desired);
    if prune {
      var stale := StaleNames(byName, NamesOf(desired));
      actions := actions + Deletions(stale);
    }
  }
}
