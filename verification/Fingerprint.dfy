/** The canonical text a configuration is fingerprinted by
    (src/process/fingerprint.rs). The digest taken of it is not modelled: equal
    fingerprints stand for equal texts. */
module Fingerprint {
  import opened Prelude
  import opened Domain
  import opened Text
  import opened Sorting

  const ARG_END: char := '\U{1F}'
  const ENV_END: char := '\U{1E}'
  const PATH_END: char := '\U{1D}'
  const LINE_END: char := '\n'

  // ---------------------------------------------------------------------
  // Rendering one field
  // ---------------------------------------------------------------------

  predicate Free(s: string, c: char) {
    forall i :: 0 <= i < |s| ==> s[i] != c
  }

  /** Every item followed by the separator. */
  function Terminated(items: seq<string>, end: char): string {
    if items == [] then "" else items[0] + [end] + Terminated(items[1..], end)
  }

  function OrEmpty(o: Option<string>): string {
    o.GetOr("")
  }

  function Flag(b: bool): string {
    if b then "true" else "false"
  }

  function PolicyText(p: RestartPolicy): string {
    match p
    case Always => "always"
    case OnFailure => "on-failure"
    case Never => "never"
  }

  /** Debug formatting of a character inside a string literal. */
  function Escaped(c: char): string {
    if c == '"' then "\\\"" else if c == '\\' then "\\\\" else if c == '\n' then "\\n"
    else if c == '\r' then "\\r" else if c == '\t' then "\\t" else if c == '\0' then "\\0" else [c]
  }

  function EscapedText(s: string): string {
    if s == "" then "" else Escaped(s[0]) + EscapedText(s[1..])
  }

  function DebugText(o: Option<string>): string {
    if o.None? then "None" else "Some(\"" + EscapedText(o.value) + "\")"
  }

  function DebugNumber(o: Option<nat>): string {
    if o.None? then "None" else "Some(" + Decimal(o.value) + ")"
  }

  /** Debug formatting of an optional number already printed. */
  function DebugPrinted(o: Option<string>): string {
    if o.None? then "None" else "Some(" + o.value + ")"
  }

  function Piped(parts: seq<string>): string
    requires parts != []
  {
    if |parts| == 1 then parts[0] else parts[0] + "|" + Piped(parts[1..])
  }

  function HealthText(h: Option<HealthCheck>): string {
    if h.None? then ""
    else Piped([h.value.command, Decimal(h.value.intervalSecs), Decimal(h.value.timeoutSecs), Decimal(h.value.maxFailures)])
  }

  function LimitsText(l: Option<ResourceLimits>): string {
    if l.None? then ""
    else Piped([DebugNumber(l.value.maxMemoryMb), DebugPrinted(l.value.maxCpuPercent),
                Flag(l.value.cgroupEnforce), Flag(l.value.denyGpu)])
  }

  /** The environment, in the order of the listed keys. */
  function EnvItems(keys: seq<string>, env: map<string, string>): (r: seq<string>)
    requires forall i :: 0 <= i < |keys| ==> keys[i] in env
    ensures |r| == |keys| && forall i :: 0 <= i < |keys| ==> r[i] == keys[i] + "=" + env[keys[i]]
  {
    if keys == [] then [] else [keys[0] + "=" + env[keys[0]]] + EnvItems(keys[1..], env)
  }

  ghost function Listing(keys: set<string>): (s: seq<string>)
    ensures Lists(s, keys)
  {
    if keys == {} then []
    else
      var k :| k in keys;
      assert multiset(keys) == multiset{k} + multiset(keys - {k});
      [k] + Listing(keys - {k})
  }

  lemma ListingHolds(s: seq<string>, keys: set<string>)
    requires Lists(s, keys)
    ensures forall i :: 0 <= i < |s| ==> s[i] in keys
  {
    forall i | 0 <= i < |s| ensures s[i] in keys {
      assert s[i] in multiset(s);
    }
  }

  ghost function SortedKeys(keys: set<string>): (s: seq<string>)
    ensures Lists(s, keys) && forall i :: 0 <= i < |s| ==> s[i] in keys
  {
    SortedIsSorted(Listing(keys));
    ListingHolds(Sorted(Listing(keys)), keys);
    Sorted(Listing(keys))
  }

  ghost function EnvText(env: map<string, string>): string {
    Terminated(EnvItems(SortedKeys(env.Keys), env), ENV_END)
  }

  // ---------------------------------------------------------------------
  // The text
  // ---------------------------------------------------------------------

  const FIELDS: seq<string> := [
    "command", "args", "cwd", "pre_reload_cmd", "restart_policy", "max_restarts", "crash_restart_limit",
    "stop_timeout_secs", "restart_delay_secs", "start_delay_secs", "watch", "watch_delay_secs", "cluster_mode",
    "cluster_instances", "namespace", "git_repo", "git_ref", "pull_secret_hash", "reuse_port", "wait_ready",
    "ready_timeout_secs", "watch_paths", "ignore_watch", "stop_signal", "env", "health_check", "resource_limits",
    "log_date_format", "unified_logs", "cron_restart"]

  ghost function Values(c: Config): (r: seq<string>)
    ensures |r| == |FIELDS|
  {
    LaunchValues(c) + PlacementValues(c) + ContentValues(c)
  }

  function LaunchValues(c: Config): (r: seq<string>)
    ensures |r| == 10
  {
    [c.command, Terminated(c.args, ARG_END), OrEmpty(c.cwd), OrEmpty(c.preReloadCmd), PolicyText(c.restartPolicy),
     Decimal(c.maxRestarts), Decimal(c.crashRestartLimit), Decimal(c.stopTimeoutSecs), Decimal(c.restartDelaySecs),
     Decimal(c.startDelaySecs)]
  }

  function PlacementValues(c: Config): (r: seq<string>)
    ensures |r| == 11
  {
    [Flag(c.watch), Decimal(c.watchDelaySecs), Flag(c.clusterMode), DebugNumber(c.clusterInstances),
     DebugText(c.namespace), DebugText(c.gitRepo), DebugText(c.gitRef), DebugText(c.pullSecretHash),
     Flag(c.reusePort), Flag(c.waitReady), Decimal(c.readyTimeoutSecs)]
  }

  ghost function ContentValues(c: Config): (r: seq<string>)
    ensures |r| == 9
  {
    [Terminated(Sorted(c.watchPaths), PATH_END), Terminated(Sorted(c.ignoreWatch), PATH_END), OrEmpty(c.stopSignal),
     EnvText(c.env), HealthText(c.healthCheck), LimitsText(c.resourceLimits), OrEmpty(c.logDateFormat),
     Flag(c.unifiedLogs), OrEmpty(c.cronRestart)]
  }

  /** `field=value` lines, without a newline after the last. */
  function Lines(fields: seq<string>, values: seq<string>): string
    requires |fields| == |values| > 0
  {
    var line := fields[0] + "=" + values[0];
    if |fields| == 1 then line else line + [LINE_END] + Lines(fields[1..], values[1..])
  }

  ghost function Payload(c: Config): string {
    Lines(FIELDS, Values(c))
  }

  // ---------------------------------------------------------------------
  // Building the text
  // ---------------------------------------------------------------------

  method PushTerminated(items: seq<string>, end: char) returns (text: string)
    ensures text == Terminated(items, end)
  {
    text := "";
    for k := 0 to |items|
      invariant text + Terminated(items[k..], end) == Terminated(items, end)
    {
      assert items[k..][1..] == items[k + 1..];
      assert Terminated(items[k..], end) == items[k] + [end] + Terminated(items[k + 1..], end);
      text := text + items[k] + [end];
    }
  }

  method ListKeys(env: map<string, string>) returns (keys: seq<string>)
    ensures Lists(keys, env.Keys)
  {
    keys := [];
    var rest := env.Keys;
    while rest != {}
      invariant rest <= env.Keys && multiset(keys) + multiset(rest) == multiset(env.Keys)
      decreases |rest|
    {
      var k :| k in rest;
      assert multiset(rest) == multiset{k} + multiset(rest - {k});
      keys := keys + [k];
      rest := rest - {k};
    }
  }

  /** Whatever order the environment is enumerated in, its text is the same. */
  method RenderEnv(env: map<string, string>) returns (text: string)
    ensures text == EnvText(env)
  {
    var keys := ListKeys(env);
    var sorted := SortStrings(keys);
    SortedIsSorted(keys);
    ListingHolds(sorted, env.Keys);
    SortedIsCanonical(keys, Listing(env.Keys));
    text := PushTerminated(EnvItems(sorted, env), '\U{1E}');
  }

  /** The fields from the `from`-th on, with their values. */
  ghost predicate AreFields(lines: seq<(string, string)>, values: seq<string>, from: nat)
    requires |values| == |lines| && from + |lines| <= |FIELDS|
  {
    forall i :: 0 <= i < |lines| ==> lines[i] == (FIELDS[from + i], values[i])
  }

  method FlagText(b: bool) returns (text: string)
    ensures text == Flag(b)
  {
    text := if b then "true" else "false";
  }

  method PolicyName(p: RestartPolicy) returns (text: string)
    ensures text == PolicyText(p)
  {
    match p
    case Always => text := "always";
    case OnFailure => text := "on-failure";
    case Never => text := "never";
  }

  method LaunchLines(c: Config) returns (lines: seq<(string, string)>)
    ensures |lines| == 10 && AreFields(lines, LaunchValues(c), 0)
  {
    var args := PushTerminated(c.args, '\U{1F}');
    var policy := PolicyName(c.restartPolicy);
    lines := [
      ("command", c.command), ("args", args), ("cwd", OrEmpty(c.cwd)), ("pre_reload_cmd", OrEmpty(c.preReloadCmd)),
      ("restart_policy", policy), ("max_restarts", Decimal(c.maxRestarts)),
      ("crash_restart_limit", Decimal(c.crashRestartLimit)), ("stop_timeout_secs", Decimal(c.stopTimeoutSecs)),
      ("restart_delay_secs", Decimal(c.restartDelaySecs)), ("start_delay_secs", Decimal(c.startDelaySecs))];
  }

  method ClusterLines(c: Config) returns (lines: seq<(string, string)>)
    ensures |lines| == 4 && AreFields(lines, PlacementValues(c)[..4], 10)
  {
    var watch := FlagText(c.watch);
    var clusterMode := FlagText(c.clusterMode);
    lines := [
      ("watch", watch), ("watch_delay_secs", Decimal(c.watchDelaySecs)), ("cluster_mode", clusterMode),
      ("cluster_instances", DebugNumber(c.clusterInstances))];
  }

  method SourceLines(c: Config) returns (lines: seq<(string, string)>)
    ensures |lines| == 7 && AreFields(lines, PlacementValues(c)[4..], 14)
  {
    var reusePort := FlagText(c.reusePort);
    var waitReady := FlagText(c.waitReady);
    lines := [
      ("namespace", DebugText(c.namespace)), ("git_repo", DebugText(c.gitRepo)), ("git_ref", DebugText(c.gitRef)),
      ("pull_secret_hash", DebugText(c.pullSecretHash)), ("reuse_port", reusePort), ("wait_ready", waitReady),
      ("ready_timeout_secs", Decimal(c.readyTimeoutSecs))];
  }

  method PlacementLines(c: Config) returns (lines: seq<(string, string)>)
    ensures |lines| == 11 && AreFields(lines, PlacementValues(c), 10)
  {
    var cluster := ClusterLines(c);
    var source := SourceLines(c);
    Appended(cluster, PlacementValues(c)[..4], source, PlacementValues(c)[4..], 10);
    assert PlacementValues(c)[..4] + PlacementValues(c)[4..] == PlacementValues(c);
    lines := cluster + source;
  }

  method ContentLines(c: Config) returns (lines: seq<(string, string)>)
    ensures |lines| == 9 && AreFields(lines, ContentValues(c), 21)
  {
    var sortedPaths := SortStrings(c.watchPaths);
    var watchPaths := PushTerminated(sortedPaths, '\U{1D}');
    var sortedPatterns := SortStrings(c.ignoreWatch);
    var ignoreWatch := PushTerminated(sortedPatterns, '\U{1D}');
    var env := RenderEnv(c.env);
    var unifiedLogs := FlagText(c.unifiedLogs);
    lines := [
      ("watch_paths", watchPaths), ("ignore_watch", ignoreWatch), ("stop_signal", OrEmpty(c.stopSignal)), ("env", env),
      ("health_check", HealthText(c.healthCheck)), ("resource_limits", LimitsText(c.resourceLimits)),
      ("log_date_format", OrEmpty(c.logDateFormat)), ("unified_logs", unifiedLogs),
      ("cron_restart", OrEmpty(c.cronRestart))];
  }

  method JoinLines(lines: seq<(string, string)>, ghost fields: seq<string>, ghost values: seq<string>) returns (text: string)
    requires |lines| == |fields| == |values| > 0
    requires forall i :: 0 <= i < |lines| ==> lines[i] == (fields[i], values[i])
    ensures text == Lines(fields, values)
  {
    text := lines[0].0 + "=" + lines[0].1;
    ghost var whole := Lines(fields, values);
    for k := 1 to |lines|
      invariant whole == text + if k == |fields| then "" else [LINE_END] + Lines(fields[k..], values[k..])
    {
      assert fields[k..][1..] == fields[k + 1..] && values[k..][1..] == values[k + 1..];
      text := text + "\n" + (lines[k].0 + "=" + lines[k].1);
    }
  }

  method BuildPayload(c: Config) returns (text: string)
    ensures text == Payload(c)
  {
    var launch := LaunchLines(c);
    var placement := PlacementLines(c);
    var content := ContentLines(c);
    ThreeParts(launch, placement, content, c);
    text := JoinLines(launch + placement + content, FIELDS, Values(c));
  }

  lemma ThreeParts(a: seq<(string, string)>, b: seq<(string, string)>, d: seq<(string, string)>, c: Config)
    requires |a| == 10 && |b| == 11 && |d| == 9
    requires AreFields(a, LaunchValues(c), 0) && AreFields(b, PlacementValues(c), 10)
    requires AreFields(d, ContentValues(c), 21)
    ensures AreFields(a + b + d, Values(c), 0)
  {
    Appended(a, LaunchValues(c), b, PlacementValues(c), 0);
    Appended(a + b, LaunchValues(c) + PlacementValues(c), d, ContentValues(c), 0);
  }

  lemma Appended(a: seq<(string, string)>, v: seq<string>, b: seq<(string, string)>, w: seq<string>, from: nat)
    requires |a| == |v| && |b| == |w| && from + |a| + |b| <= |FIELDS|
    requires AreFields(a, v, from) && AreFields(b, w, from + |a|)
    ensures AreFields(a + b, v + w, from)
  {
    forall i | 0 <= i < |a + b| ensures (a + b)[i] == (FIELDS[from + i], (v + w)[i]) {
      if i >= |a| {
        assert (a + b)[i] == b[i - |a|] && (v + w)[i] == w[i - |a|];
      }
    }
  }
}
