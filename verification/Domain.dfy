/** Process-domain types shared by the daemon, the planner and the codecs
    (src/process.rs). */
module Domain {
  import opened Prelude

  const U32_MAX: nat := 0xFFFF_FFFF
  const U64_MAX: nat := 0xFFFF_FFFF_FFFF_FFFF

  datatype RestartPolicy = Always | OnFailure | Never {
    predicate ShouldRestart(exitedSuccessfully: bool) {
      Always? || (OnFailure? && !exitedSuccessfully)
    }
  }

  datatype Status = Running | Stopped | Crashed | Restarting | Errored

  datatype Desired = WantRunning | WantStopped

  datatype HealthCheck = HealthCheck(command: string, intervalSecs: nat, timeoutSecs: nat, maxFailures: nat)

  /** `maxCpuPercent` is the number as it is printed. */
  datatype ResourceLimits = ResourceLimits(
    maxMemoryMb: Option<nat>,
    maxCpuPercent: Option<string>,
    cgroupEnforce: bool,
    denyGpu: bool)

  /** The settings of one process. */
  datatype Config = Config(
    command: string,
    args: seq<string>,
    cwd: Option<string>,
    preReloadCmd: Option<string>,
    restartPolicy: RestartPolicy,
    maxRestarts: nat,
    crashRestartLimit: nat,
    stopTimeoutSecs: nat,
    restartDelaySecs: nat,
    startDelaySecs: nat,
    watch: bool,
    watchDelaySecs: nat,
    clusterMode: bool,
    clusterInstances: Option<nat>,
    namespace: Option<string>,
    gitRepo: Option<string>,
    gitRef: Option<string>,
    pullSecretHash: Option<string>,
    reusePort: bool,
    waitReady: bool,
    readyTimeoutSecs: nat,
    watchPaths: seq<string>,
    ignoreWatch: seq<string>,
    stopSignal: Option<string>,
    env: map<string, string>,
    healthCheck: Option<HealthCheck>,
    resourceLimits: Option<ResourceLimits>,
    logDateFormat: Option<string>,
    unifiedLogs: bool,
    cronRestart: Option<string>)

  function AtLeastOne(n: nat): nat {
    if n == 0 then 1 else n
  }

  /** The settings as the daemon stores them when a process is started. */
  function Normalized(c: Config): Config {
    c.(stopTimeoutSecs := AtLeastOne(c.stopTimeoutSecs),
       clusterInstances := if c.clusterInstances == Some(0) then None else c.clusterInstances,
       readyTimeoutSecs := AtLeastOne(c.readyTimeoutSecs))
  }

  datatype Logs = Logs(stdout: string, stderr: string)

  function SatAdd(a: nat, b: nat, max: nat): nat {
    if a + b > max then max else a + b
  }
}
