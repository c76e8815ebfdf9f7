/** The foreground supervisor (src/commands/runtime.rs): polls its children and
    restarts them within a budget and a crash-loop limit. */
module ForegroundRuntime {
  import opened Prelude
  import opened Domain
  import opened CrashLimiter

  /** One supervised process. A child is known by its pid. */
  datatype Entry = Entry(
    name: string,
    spec: Config,
    child: Option<nat>,
    restartCount: nat,
    history: seq<nat>,
    nextRestartAt: Option<nat>)

  datatype Wait = StillRunning | Exited(success: bool) | WaitFailed

  /** What the environment answers while one entry is handled: the pid of a new
      child, the child's state, and the two readings of the wall clock. */
  datatype Answer = Answer(spawned: Option<nat>, wait: Wait, checkedAt: nat, recordedAt: nat)

  /** One pass of the loop: the shutdown signal, or a poll at a time. */
  datatype Poll = Signal | Tick(now: nat, answers: seq<Answer>)

  // ---------------------------------------------------------------------
  // One entry in one pass
  // ---------------------------------------------------------------------

  predicate Due(e: Entry, now: nat) {
    e.nextRestartAt.Some? && e.nextRestartAt.value <= now
  }

  predicate Budgeted(e: Entry, success: bool) {
    e.spec.restartPolicy.ShouldRestart(success) && e.restartCount < e.spec.maxRestarts
  }

  predicate Restartable(e: Entry, success: bool, a: Answer) {
    Budgeted(e, success) && !LimitReached(e.history, e.spec.crashRestartLimit, a.checkedAt)
  }

  function AfterSpawn(e: Entry, now: nat, a: Answer): Entry {
    if Due(e, now) then e.(nextRestartAt := None, child := if a.spawned.Some? then a.spawned else e.child) else e
  }

  function ScheduledAgain(e: Entry, now: nat, a: Answer): Entry {
    e.(child := None, restartCount := SatAdd(e.restartCount, 1, U32_MAX),
       history := Recorded(Prune(e.history, a.checkedAt), e.spec.crashRestartLimit, a.recordedAt),
       nextRestartAt := Some(now + e.spec.restartDelaySecs))
  }

  /** Whether handling the entry ends the whole runtime. */
  predicate Fatal(e: Entry, now: nat, a: Answer) {
    if Due(e, now) && a.spawned.None? then true
    else
      var f := AfterSpawn(e, now, a);
      f.child.Some? && (a.wait.WaitFailed? || (a.wait.Exited? && !Restartable(f, a.wait.success, a)))
  }

  /** The entry after a pass that was not fatal to it. */
  function Observed(e: Entry, now: nat, a: Answer): Entry {
    var f := AfterSpawn(e, now, a);
    if f.child.Some? && a.wait.Exited? then ScheduledAgain(f, now, a) else f
  }

  predicate Restarted(e: Entry, now: nat, a: Answer) {
    AfterSpawn(e, now, a).child.Some? && a.wait.Exited?
  }

  /** The restarts of an entry, including one that just happened. */
  ghost function Logged(log: seq<nat>, e: Entry, now: nat, a: Answer): seq<nat> {
    if Restarted(e, now, a) then log + [a.recordedAt] else log
  }

  /** Exactly one of a live child and a pending restart. */
  predicate Supervised(e: Entry) {
    e.child.Some? <==> e.nextRestartAt.None?
  }

  predicate Idle(e: Entry) {
    e.child.None? && e.nextRestartAt.None?
  }

  lemma ObservedIsSupervised(e: Entry, now: nat, a: Answer)
    requires Supervised(e) && !Fatal(e, now, a)
    ensures Supervised(Observed(e, now, a))
    ensures Due(e, now) ==> e.child.None?
  {
  }

  /** `log` lists the times of all restarts of the entry: within budget, and spaced
      as the crash-loop limit demands. */
  ghost predicate Limited(e: Entry, log: seq<nat>, clock: nat) {
    && |log| == e.restartCount <= e.spec.maxRestarts <= U32_MAX
    && (e.spec.crashRestartLimit > 0 ==>
          Remembers(e.history, log, clock) && Spaced(log, e.spec.crashRestartLimit))
  }

  lemma ObservedIsLimited(e: Entry, log: seq<nat>, clock: nat, now: nat, a: Answer)
    requires Limited(e, log, clock) && clock <= a.checkedAt <= a.recordedAt && !Fatal(e, now, a)
    ensures Limited(Observed(e, now, a), if Restarted(e, now, a) then log + [a.recordedAt] else log, a.recordedAt)
  {
    if Restarted(e, now, a) && e.spec.crashRestartLimit > 0 {
      RecordKeepsSpacing(e.history, log, e.spec.crashRestartLimit, clock, a.checkedAt, a.recordedAt);
    } else if e.spec.crashRestartLimit > 0 {
      LaterRemembers(e.history, log, clock, a.recordedAt);
    }
  }

  lemma LaterRemembers(history: seq<nat>, log: seq<nat>, earlier: nat, now: nat)
    requires Remembers(history, log, earlier) && earlier <= now
    ensures Remembers(history, log, now)
  {
  }

  /** The crash-loop guarantee: whatever happened so far, no interval of five minutes
      holds more than the limit of automatic restarts of one entry. */
  lemma CrashLoopBound(e: Entry, log: seq<nat>, clock: nat, from: nat)
    requires Limited(e, log, clock) && e.spec.crashRestartLimit > 0
    ensures |set i | 0 <= i < |log| && from <= log[i] < from + WINDOW_SECS| <= e.spec.crashRestartLimit
  {
    WindowBound(log, e.spec.crashRestartLimit, from);
  }

  // ---------------------------------------------------------------------
  // What a poll comes to
  // ---------------------------------------------------------------------

  /** Policy, budget and crash-loop limit allow a restart after such an exit. */
  ghost predicate RestartAllowed(e: Entry, success: bool, now: nat) {
    && (e.spec.restartPolicy == Always || (e.spec.restartPolicy == OnFailure && !success))
    && e.restartCount < e.spec.maxRestarts
    && (e.spec.crashRestartLimit > 0 ==> |RecentRestarts(e.history, now)| < e.spec.crashRestartLimit)
  }

  /** The same by all restarts ever made. */
  lemma AllowedByLog(e: Entry, log: seq<nat>, clock: nat, success: bool, now: nat)
    requires Limited(e, log, clock) && clock <= now
    ensures RestartAllowed(e, success, now) <==>
            && (e.spec.restartPolicy == Always || (e.spec.restartPolicy == OnFailure && !success))
            && |log| < e.spec.maxRestarts
            && (e.spec.crashRestartLimit > 0 ==> |RecentRestarts(log, now)| < e.spec.crashRestartLimit)
  {
    if e.spec.crashRestartLimit > 0 {
      LogDecides(e.history, log, clock, e.spec.crashRestartLimit, now);
      LimitReachedIff(e.history, e.spec.crashRestartLimit, now);
    }
  }

  ghost predicate IsDue(e: Entry, now: nat) {
    e.nextRestartAt.Some? && e.nextRestartAt.value <= now
  }

  /** A due restart brings up a new child. An entry whose child ended is scheduled to
      restart after the configured delay. The runtime ends when a child cannot be brought
      up or looked after, or ended and may not restart. */
  ghost predicate Polled(e: Entry, now: nat, a: Answer, r: Entry, fatal: bool) {
    var child := if IsDue(e, now) then a.spawned else e.child;
    if child.None? then fatal == IsDue(e, now) && (!fatal ==> r == e)
    else
      match a.wait
      case StillRunning => !fatal && r == e.(child := child, nextRestartAt := if IsDue(e, now) then None else e.nextRestartAt)
      case WaitFailed => fatal
      case Exited(success) => fatal == !RestartAllowed(e, success, a.checkedAt) && (!fatal ==> Rescheduled(e, now, a, r))
  }

  ghost predicate Rescheduled(e: Entry, now: nat, a: Answer, r: Entry) {
    && r == e.(child := None, restartCount := r.restartCount, history := r.history, nextRestartAt := r.nextRestartAt)
    && r.restartCount == (if e.restartCount >= U32_MAX then U32_MAX else e.restartCount + 1)
    && r.nextRestartAt == Some(now + e.spec.restartDelaySecs)
    && (e.spec.crashRestartLimit == 0 ==> |r.history| <= |e.history|)
    && (e.spec.crashRestartLimit > 0 ==> r.history != [] && r.history[|r.history| - 1] == a.recordedAt)
  }

  lemma PollMeans(e: Entry, now: nat, a: Answer)
    requires Supervised(e)
    ensures Polled(e, now, a, Observed(e, now, a), Fatal(e, now, a))
  {
    LimitReachedIff(e.history, e.spec.crashRestartLimit, a.checkedAt);
  }

  // ---------------------------------------------------------------------
  // The supervisor
  // ---------------------------------------------------------------------

  /** The wall clock does not run backwards. */
  ghost predicate Monotone(clock: nat, answers: seq<Answer>) {
    && (forall i :: 0 <= i < |answers| ==> clock <= answers[i].checkedAt <= answers[i].recordedAt)
    && (forall i, j :: 0 <= i < j < |answers| ==> answers[i].recordedAt <= answers[j].checkedAt)
  }

  class Supervisor {
    var entries: seq<Entry>
    /** All restarts of each entry so far, and the latest clock reading. */
    ghost var logs: seq<seq<nat>>
    ghost var clock: nat

    ghost predicate Valid()
      reads this
    {
      AllLimited(entries, logs, clock)
    }

    ghost predicate AllSupervised()
      reads this
    {
      forall i :: 0 <= i < |entries| ==> Supervised(entries[i])
    }

    ghost predicate AllIdle()
      reads this
    {
      forall i :: 0 <= i < |entries| ==> Idle(entries[i])
    }

    constructor (specs: seq<(string, Config)>)
      requires forall i :: 0 <= i < |specs| ==> specs[i].1.maxRestarts <= U32_MAX
      ensures Valid() && AllIdle() && |entries| == |logs| == |specs|
      ensures forall i :: 0 <= i < |specs| ==> entries[i] == Entry(specs[i].0, specs[i].1, None, 0, [], None)
      ensures clock == 0 && forall i :: 0 <= i < |specs| ==> logs[i] == []
    {
      entries := seq(|specs|, i requires 0 <= i < |specs| => Entry(specs[i].0, specs[i].1, None, 0, [], None));
      logs := seq(|specs|, _ => []);
      clock := 0;
    }

    /** Starts all entries. A failure stops halfway: the entries before it keep their
        children, for nothing shuts them down. */
    method StartAll(spawned: seq<Option<nat>>) returns (started: nat)
      requires Valid() && AllIdle() && |spawned| == |entries|
      modifies this`entries
      ensures Valid() && |entries| == old(|entries|) && started <= |entries|
      ensures forall i :: 0 <= i < started ==> spawned[i].Some? && entries[i] == old(entries)[i].(child := spawned[i])
      ensures forall i :: started <= i < |entries| ==> entries[i] == old(entries)[i]
      ensures forall i :: 0 <= i < started ==> entries[i].child.Some? && entries[i].nextRestartAt.None?
      ensures forall i :: started <= i < |entries| ==> Idle(entries[i])
      ensures started < |entries| ==> spawned[started].None?
      ensures started == |entries| ==> AllSupervised()
    {
      started := 0;
      while started < |entries|
        invariant started <= |entries| == |spawned| == |old(entries)| && Valid()
        invariant forall i :: 0 <= i < started ==>
                                spawned[i].Some? && entries[i] == old(entries)[i].(child := spawned[i])
        invariant forall i :: started <= i < |entries| ==> entries[i] == old(entries)[i]
        invariant forall i :: 0 <= i < |entries| ==> Idle(old(entries)[i])
      {
        var entry, ok := SpawnEntry(entries[started], spawned[started]);
        if !ok {
          return;
        }
        entries := entries[started := entry];
        started := started + 1;
      }
    }

    method ShutdownAll()
      requires Valid()
      modifies this`entries
      ensures Valid() && AllIdle() && |entries| == old(|entries|)
      ensures forall i :: 0 <= i < |entries| ==> entries[i] == old(entries)[i].(child := None, nextRestartAt := None)
    {
      for i := 0 to |entries|
        invariant |entries| == old(|entries|) && Valid()
        invariant forall j :: 0 <= j < i ==> entries[j] == old(entries)[j].(child := None, nextRestartAt := None)
        invariant forall j :: i <= j < |entries| ==> entries[j] == old(entries)[j]
      {
        entries := entries[i := entries[i].(child := None, nextRestartAt := None)];
      }
    }

    method Handle(i: nat, now: nat, a: Answer) returns (fatal: bool)
      requires Valid() && i < |entries| && Supervised(entries[i]) && clock <= a.checkedAt <= a.recordedAt
      modifies this
      ensures Valid() && clock == a.recordedAt && |entries| == old(|entries|)
      ensures fatal == Fatal(old(entries)[i], now, a)
      ensures !fatal ==> entries == old(entries)[i := Observed(old(entries)[i], now, a)]
      ensures SameSpecs(old(entries), entries)
      ensures logs == if fatal then old(logs) else old(logs)[i := Logged(old(logs)[i], old(entries)[i], now, a)]
    {
      assert Limited(entries[i], logs[i], clock);
      var entry;
      entry, fatal := PollEntry(entries[i], now, a);
      ghost var log := PollIsLimited(entries[i], logs[i], clock, now, a, entry, fatal);
      AllLimitedStep(entries, logs, clock, i, entry, log, a.recordedAt);
      entries := entries[i := entry];
      logs, clock := logs[i := log], a.recordedAt;
    }

    /** One pass over all entries. A fatal entry ends the pass and shuts everything down. */
    method Pass(now: nat, answers: seq<Answer>) returns (fatal: bool)
      requires Valid() && AllSupervised() && |answers| == |entries| && Monotone(clock, answers)
      modifies this
      ensures Valid() && SameSpecs(old(entries), entries)
      ensures fatal == FatalPass(old(entries), now, answers)
      ensures fatal ==> AllIdle()
      ensures !fatal ==> AllSupervised() && clock == AfterPass(old(clock), answers)
      ensures !fatal ==> entries == EntriesAfterPass(old(entries), now, answers)
      ensures logs == LogsAfterPass(old(entries), old(logs), now, answers)
    {
      ghost var before, start, earlier := entries, clock, logs;
      for i := 0 to |entries|
        invariant |entries| == |before| == |logs| && Valid() && SameSpecs(before, entries)
        invariant clock == AfterPass(start, answers[..i])
        invariant Halfway(before, entries, earlier, logs, now, answers, i)
      {
        ghost var entriesThen, logsThen := entries, logs;
        assert clock <= answers[i].checkedAt;
        fatal := Handle(i, now, answers[i]);
        if fatal {
          FatalPassLogs(before, earlier, logs, now, answers, i);
          ShutdownAll();
          return;
        }
        assert entries[i := before[i]] == entriesThen && logs[i := earlier[i]] == logsThen;
        HalfwayNext(before, entries, earlier, logs, now, answers, i);
      }
      assert answers[..|answers|] == answers;
      SupervisedThrough(before, entries, earlier, logs, now, answers);
      WholePass(before, entries, earlier, logs, now, answers);
      return false;
    }

    /** The supervision loop: runs until the signal or a fatal entry, and leaves
        neither children nor pending restarts behind when it ends. */
    method Run(polls: seq<Poll>) returns (ended: bool, fatal: bool)
      requires Valid() && AllSupervised() && ClockRuns(clock, polls, |entries|)
      modifies this
      ensures Valid() && SameSpecs(old(entries), entries)
      ensures ended ==> AllIdle()
      ensures !ended ==> AllSupervised() && entries == EntriesAfter(old(entries), polls)
      ensures ended == FateOf(old(entries), polls).Some? && fatal == (FateOf(old(entries), polls) == Some(Failed))
      ensures logs == LogsAfter(old(entries), old(logs), polls)
      ensures AllBounded(entries, logs)
    {
      ghost var before, earlier := entries, logs;
      for k := 0 to |polls|
        invariant Valid() && AllSupervised() && SameSpecs(before, entries)
        invariant ClockRuns(clock, polls[k..], |entries|)
        invariant |logs| == |entries| && Continues(before, earlier, polls, entries, logs, polls[k..])
      {
        ghost var rest := polls[k..];
        assert rest[0] == polls[k] && rest[1..] == polls[k + 1..];
        if polls[k].Signal? {
          ShutdownAll();
          LimitedIsBounded(entries, logs, clock);
          return true, false;
        }
        PassUnfolds(entries, logs, rest);
        fatal := Pass(polls[k].now, polls[k].answers);
        if fatal {
          LimitedIsBounded(entries, logs, clock);
          return true, true;
        }
      }
      LimitedIsBounded(entries, logs, clock);
      return false, false;
    }
  }

  /** The whole runtime: start every entry, then supervise them. All restarts it ever
      makes are within each entry's budget, and within its limit in any five minutes. */
  method RunRuntime(specs: seq<(string, Config)>, spawned: seq<Option<nat>>, polls: seq<Poll>)
    returns (supervisor: Supervisor, started: nat, ended: bool, fatal: bool)
    requires |spawned| == |specs| && forall i :: 0 <= i < |specs| ==> specs[i].1.maxRestarts <= U32_MAX
    requires ClockRuns(0, polls, |specs|)
    ensures started <= |specs| == |supervisor.entries| && forall i :: 0 <= i < started ==> spawned[i].Some?
    ensures started < |specs| ==> spawned[started].None? && ended && fatal
    ensures started == |specs| && ended ==> supervisor.AllIdle()
    ensures started == |specs| && !ended ==> supervisor.AllSupervised()
    ensures forall i :: 0 <= i < |specs| ==>
                          supervisor.entries[i].name == specs[i].0 && supervisor.entries[i].spec == specs[i].1
    ensures |supervisor.logs| == |specs|
    ensures forall i :: 0 <= i < |specs| ==> Bounded(specs[i].1, supervisor.logs[i])
    ensures started == |specs| ==>
              && ended == FateOf(Started(specs, spawned), polls).Some?
              && fatal == (FateOf(Started(specs, spawned), polls) == Some(Failed))
              && supervisor.logs == LogsAfter(Started(specs, spawned), NoRestarts(|specs|), polls)
  {
    supervisor := new Supervisor(specs);
    started := supervisor.StartAll(spawned);
    if started < |specs| {
      LimitedIsBounded(supervisor.entries, supervisor.logs, supervisor.clock);
      return supervisor, started, true, true;
    }
    assert supervisor.entries == Started(specs, spawned) && supervisor.logs == NoRestarts(|specs|);
    ended, fatal := supervisor.Run(polls);
  }

  ghost function NoRestarts(n: nat): (r: seq<seq<nat>>)
    ensures |r| == n && forall i :: 0 <= i < n ==> r[i] == []
  {
    seq(n, _ => [])
  }

  /** The entries once all of them are started. */
  ghost function Started(specs: seq<(string, Config)>, spawned: seq<Option<nat>>): (r: seq<Entry>)
    requires |spawned| == |specs|
    ensures |r| == |specs|
  {
    seq(|specs|, i requires 0 <= i < |specs| => Entry(specs[i].0, specs[i].1, spawned[i], 0, [], None))
  }

  // ---------------------------------------------------------------------
  // Whole runs
  // ---------------------------------------------------------------------

  ghost predicate SameSpecs(before: seq<Entry>, after: seq<Entry>) {
    && |after| == |before|
    && forall i :: 0 <= i < |before| ==> after[i].name == before[i].name && after[i].spec == before[i].spec
  }

  /** The restarts of an entry with these settings stay within the budget, and within
      the limit in any five minutes. */
  ghost predicate Bounded(spec: Config, log: seq<nat>) {
    && |log| <= spec.maxRestarts
    && (spec.crashRestartLimit > 0 ==>
          forall from: nat :: |InWindow(log, from)| <= spec.crashRestartLimit)
  }

  ghost function InWindow(log: seq<nat>, from: nat): set<int> {
    set i | 0 <= i < |log| && from <= log[i] < from + WINDOW_SECS
  }

  ghost predicate AllBounded(entries: seq<Entry>, logs: seq<seq<nat>>) {
    |logs| == |entries| && forall i :: 0 <= i < |entries| ==> Bounded(entries[i].spec, logs[i])
  }

  lemma LimitedIsBounded(entries: seq<Entry>, logs: seq<seq<nat>>, clock: nat)
    requires AllLimited(entries, logs, clock)
    ensures AllBounded(entries, logs)
  {
    forall i | 0 <= i < |entries| ensures Bounded(entries[i].spec, logs[i]) {
      if entries[i].spec.crashRestartLimit > 0 {
        forall from: nat ensures |InWindow(logs[i], from)| <= entries[i].spec.crashRestartLimit {
          CrashLoopBound(entries[i], logs[i], clock, from);
        }
      }
    }
  }

  datatype Fate = Signalled | Failed

  ghost predicate FatalPass(entries: seq<Entry>, now: nat, answers: seq<Answer>) {
    exists i :: 0 <= i < |entries| && i < |answers| && Fatal(entries[i], now, answers[i])
  }

  ghost function EntriesAfterPass(entries: seq<Entry>, now: nat, answers: seq<Answer>): (r: seq<Entry>)
    requires |answers| == |entries|
    ensures |r| == |entries|
  {
    seq(|entries|, i requires 0 <= i < |entries| => Observed(entries[i], now, answers[i]))
  }

  /** A pass records the restarts it comes to before an entry ends it. */
  ghost function LogsAfterPass(entries: seq<Entry>, logs: seq<seq<nat>>, now: nat, answers: seq<Answer>)
    : (r: seq<seq<nat>>)
    requires |answers| == |entries| == |logs|
    ensures |r| == |logs|
  {
    seq(|logs|, i requires 0 <= i < |logs| =>
          if FatalUpTo(entries, now, answers, i) then logs[i] else Logged(logs[i], entries[i], now, answers[i]))
  }

  ghost predicate FatalUpTo(entries: seq<Entry>, now: nat, answers: seq<Answer>, i: nat)
    requires i < |entries| == |answers|
  {
    exists j :: 0 <= j <= i && Fatal(entries[j], now, answers[j])
  }

  /** How and whether a run ends: at the signal, or at the first pass with a fatal entry. */
  ghost function FateOf(entries: seq<Entry>, polls: seq<Poll>): Option<Fate>
    decreases |polls|
  {
    if polls == [] then None
    else if polls[0].Signal? then Some(Signalled)
    else if |polls[0].answers| != |entries| then None
    else if FatalPass(entries, polls[0].now, polls[0].answers) then Some(Failed)
    else FateOf(EntriesAfterPass(entries, polls[0].now, polls[0].answers), polls[1..])
  }

  ghost function EntriesAfter(entries: seq<Entry>, polls: seq<Poll>): seq<Entry>
    decreases |polls|
  {
    if polls == [] || polls[0].Signal? || |polls[0].answers| != |entries| then entries
    else EntriesAfter(EntriesAfterPass(entries, polls[0].now, polls[0].answers), polls[1..])
  }

  /** Every restart made in a run, with the time it was recorded at. */
  ghost function LogsAfter(entries: seq<Entry>, logs: seq<seq<nat>>, polls: seq<Poll>): (r: seq<seq<nat>>)
    requires |logs| == |entries|
    ensures |r| == |logs|
    decreases |polls|
  {
    if polls == [] || polls[0].Signal? || |polls[0].answers| != |entries| then logs
    else
      var grown := LogsAfterPass(entries, logs, polls[0].now, polls[0].answers);
      if FatalPass(entries, polls[0].now, polls[0].answers) then grown
      else LogsAfter(EntriesAfterPass(entries, polls[0].now, polls[0].answers), grown, polls[1..])
  }

  /** The rest of a run decides what the whole of it comes to. */
  ghost predicate Continues(before: seq<Entry>, earlier: seq<seq<nat>>, polls: seq<Poll>, entries: seq<Entry>,
                            logs: seq<seq<nat>>, rest: seq<Poll>)
    requires |earlier| == |before| && |logs| == |entries|
  {
    && FateOf(before, polls) == FateOf(entries, rest)
    && EntriesAfter(before, polls) == EntriesAfter(entries, rest)
    && LogsAfter(before, earlier, polls) == LogsAfter(entries, logs, rest)
  }

  lemma PassUnfolds(entries: seq<Entry>, logs: seq<seq<nat>>, polls: seq<Poll>)
    requires polls != [] && polls[0].Tick? && |polls[0].answers| == |entries| == |logs|
    ensures var now, answers, rest := polls[0].now, polls[0].answers, polls[1..];
            var after, grown := EntriesAfterPass(entries, now, answers), LogsAfterPass(entries, logs, now, answers);
            if FatalPass(entries, now, answers) then FateOf(entries, polls) == Some(Failed)
                                                     && LogsAfter(entries, logs, polls) == grown
            else Continues(entries, logs, polls, after, grown, rest)
  {
  }

  /** A pass that has handled the first `i` entries, none of them fatal. */
  ghost predicate Halfway(before: seq<Entry>, after: seq<Entry>, earlier: seq<seq<nat>>, logs: seq<seq<nat>>,
                          now: nat, answers: seq<Answer>, i: nat)
    requires |before| == |after| == |earlier| == |logs| == |answers|
  {
    && (forall j :: 0 <= j < i && j < |before| ==>
                      && !Fatal(before[j], now, answers[j])
                      && after[j] == Observed(before[j], now, answers[j])
                      && logs[j] == Logged(earlier[j], before[j], now, answers[j]))
    && (forall j :: i <= j < |before| ==> after[j] == before[j] && logs[j] == earlier[j])
  }

  lemma HalfwayNext(before: seq<Entry>, after: seq<Entry>, earlier: seq<seq<nat>>, logs: seq<seq<nat>>,
                    now: nat, answers: seq<Answer>, i: nat)
    requires |before| == |after| == |earlier| == |logs| == |answers| && i < |before|
    requires !Fatal(before[i], now, answers[i])
    requires after[i] == Observed(before[i], now, answers[i])
    requires logs[i] == Logged(earlier[i], before[i], now, answers[i])
    requires Halfway(before, after[i := before[i]], earlier, logs[i := earlier[i]], now, answers, i)
    ensures Halfway(before, after, earlier, logs, now, answers, i + 1)
  {
    var a, l := after[i := before[i]], logs[i := earlier[i]];
    assert forall j :: 0 <= j < |before| && j != i ==> after[j] == a[j] && logs[j] == l[j];
  }

  /** Nothing was fatal: the pass did what it should to every entry. */
  lemma WholePass(before: seq<Entry>, after: seq<Entry>, earlier: seq<seq<nat>>, logs: seq<seq<nat>>,
                  now: nat, answers: seq<Answer>)
    requires |before| == |after| == |earlier| == |logs| == |answers|
    requires Halfway(before, after, earlier, logs, now, answers, |before|)
    ensures !FatalPass(before, now, answers) && after == EntriesAfterPass(before, now, answers)
    ensures logs == LogsAfterPass(before, earlier, now, answers)
  {
    assert forall i :: 0 <= i < |before| ==> !FatalUpTo(before, now, answers, i);
  }

  /** Entry `i` was fatal: the entries before it are logged, the others not. */
  lemma FatalPassLogs(before: seq<Entry>, earlier: seq<seq<nat>>, logs: seq<seq<nat>>,
                      now: nat, answers: seq<Answer>, i: nat)
    requires |before| == |earlier| == |logs| == |answers| && i < |before| && Fatal(before[i], now, answers[i])
    requires forall j :: 0 <= j < i ==> !Fatal(before[j], now, answers[j])
    requires forall j :: 0 <= j < i ==> logs[j] == Logged(earlier[j], before[j], now, answers[j])
    requires forall j :: i <= j < |before| ==> logs[j] == earlier[j]
    ensures FatalPass(before, now, answers) && logs == LogsAfterPass(before, earlier, now, answers)
  {
    assert forall j :: 0 <= j < i ==> !FatalUpTo(before, now, answers, j);
    assert forall j :: i <= j < |before| ==> FatalUpTo(before, now, answers, j);
  }

  lemma SupervisedThrough(before: seq<Entry>, after: seq<Entry>, earlier: seq<seq<nat>>, logs: seq<seq<nat>>,
                          now: nat, answers: seq<Answer>)
    requires |before| == |after| == |earlier| == |logs| == |answers|
    requires Halfway(before, after, earlier, logs, now, answers, |before|)
    requires forall i :: 0 <= i < |before| ==> Supervised(before[i])
    ensures forall i :: 0 <= i < |after| ==> Supervised(after[i])
  {
    forall i | 0 <= i < |after| ensures Supervised(after[i]) {
      ObservedIsSupervised(before[i], now, answers[i]);
    }
  }

  // ---------------------------------------------------------------------
  // Handling one entry
  // ---------------------------------------------------------------------

  /** What ends the runtime, by all restarts it ever made of the entry. */
  lemma FatalIff(e: Entry, log: seq<nat>, clock: nat, now: nat, a: Answer)
    requires Supervised(e) && Limited(e, log, clock) && clock <= a.checkedAt
    ensures Fatal(e, now, a) <==>
            if IsDue(e, now) && a.spawned.None? then true
            else
              && (IsDue(e, now) || e.child.Some?)
              && (a.wait.WaitFailed?
                  || (a.wait.Exited?
                      && !(&& (e.spec.restartPolicy == Always || (e.spec.restartPolicy == OnFailure && !a.wait.success))
                           && |log| < e.spec.maxRestarts
                           && (e.spec.crashRestartLimit > 0 ==>
                                 |RecentRestarts(log, a.checkedAt)| < e.spec.crashRestartLimit))))
  {
    PollMeans(e, now, a);
    if a.wait.Exited? {
      AllowedByLog(e, log, clock, a.wait.success, a.checkedAt);
    }
  }

  /** Gives an entry a child. It must not have one: a second would go unwatched. */
  method SpawnEntry(e: Entry, spawned: Option<nat>) returns (r: Entry, ok: bool)
    requires e.child.None?
    ensures ok == spawned.Some? && r == if ok then e.(child := spawned) else e
  {
    ok := spawned.Some?;
    r := if ok then e.(child := spawned) else e;
  }

  method CrashLoopLimitReached(e: Entry, now: nat) returns (r: Entry, reached: bool)
    ensures reached == LimitReached(e.history, e.spec.crashRestartLimit, now)
    ensures reached <==> e.spec.crashRestartLimit > 0
                         && |RecentRestarts(e.history, now)| >= e.spec.crashRestartLimit
    ensures r == e.(history := Prune(e.history, now))
  {
    LimitReachedIff(e.history, e.spec.crashRestartLimit, now);
    r := e.(history := Prune(e.history, now));
    reached := r.spec.crashRestartLimit > 0 && |r.history| >= r.spec.crashRestartLimit;
  }

  method ShouldRestart(e: Entry, success: bool, now: nat) returns (r: Entry, restart: bool)
    ensures restart == (Budgeted(e, success) && !LimitReached(e.history, e.spec.crashRestartLimit, now))
    ensures restart <==> RestartAllowed(e, success, now)
    ensures r == if Budgeted(e, success) then e.(history := Prune(e.history, now)) else e
  {
    if !e.spec.restartPolicy.ShouldRestart(success) {
      return e, false;
    }
    if e.restartCount >= e.spec.maxRestarts {
      return e, false;
    }
    var reached;
    r, reached := CrashLoopLimitReached(e, now);
    restart := !reached;
  }

  method RecordAutoRestart(e: Entry, now: nat) returns (r: Entry)
    ensures r == e.(history := Recorded(e.history, e.spec.crashRestartLimit, now))
  {
    if e.spec.crashRestartLimit == 0 {
      return e;
    }
    r := e.(history := Prune(e.history, now) + [now]);
  }

  /** Respawns the entry when due, and looks whether its child exited. */
  method PollEntry(e: Entry, now: nat, a: Answer) returns (r: Entry, fatal: bool)
    requires Supervised(e)
    ensures fatal == Fatal(e, now, a)
    ensures !fatal ==> r == Observed(e, now, a)
    ensures Polled(e, now, a, r, fatal)
    ensures r.name == e.name
    ensures fatal ==> r.spec == e.spec && r.restartCount == e.restartCount
                      && r.history in {e.history, Prune(e.history, a.checkedAt)}
  {
    PollMeans(e, now, a);
    r := e;
    if Due(r, now) {
      r := r.(nextRestartAt := None);
      var ok;
      r, ok := SpawnEntry(r, a.spawned);
      if !ok {
        return r, true;
      }
    }
    if r.child.None? {
      return r, false;
    }
    match a.wait
    case StillRunning => return r, false;
    case WaitFailed => return r, true;
    case Exited(success) => r, fatal := HandleExit(r, success, now, a);
  }

  method HandleExit(e: Entry, success: bool, now: nat, a: Answer) returns (r: Entry, fatal: bool)
    ensures fatal == !Restartable(e, success, a)
    ensures !fatal ==> r == ScheduledAgain(e, now, a)
    ensures r.name == e.name
    ensures fatal ==> r.spec == e.spec && r.restartCount == e.restartCount
                      && r.history in {e.history, Prune(e.history, a.checkedAt)}
  {
    r := e.(child := None);
    var restart;
    r, restart := ShouldRestart(r, success, a.checkedAt);
    if !restart {
      return r, true;
    }
    r := r.(restartCount := SatAdd(r.restartCount, 1, U32_MAX));
    r := RecordAutoRestart(r, a.recordedAt);
    r := r.(nextRestartAt := Some(now + r.spec.restartDelaySecs));
    return r, false;
  }

  lemma PollIsLimited(e: Entry, log: seq<nat>, clock: nat, now: nat, a: Answer, f: Entry, fatal: bool)
    returns (grown: seq<nat>)
    requires Limited(e, log, clock) && clock <= a.checkedAt <= a.recordedAt && fatal == Fatal(e, now, a)
    requires !fatal ==> f == Observed(e, now, a)
    requires fatal ==> f.spec == e.spec && f.restartCount == e.restartCount
                       && f.history in {e.history, Prune(e.history, a.checkedAt)}
    ensures Limited(f, grown, a.recordedAt)
    ensures grown == if !fatal && Restarted(e, now, a) then log + [a.recordedAt] else log
  {
    if !fatal {
      ObservedIsLimited(e, log, clock, now, a);
      grown := if Restarted(e, now, a) then log + [a.recordedAt] else log;
    } else {
      FatalIsLimited(e, log, clock, f, a);
      grown := log;
    }
  }

  lemma FatalIsLimited(e: Entry, log: seq<nat>, clock: nat, f: Entry, a: Answer)
    requires Limited(e, log, clock) && clock <= a.checkedAt <= a.recordedAt
    requires f.spec == e.spec && f.restartCount == e.restartCount
    requires f.history in {e.history, Prune(e.history, a.checkedAt)}
    ensures Limited(f, log, a.recordedAt)
  {
    if e.spec.crashRestartLimit > 0 {
      PruneRemembers(e.history, log, clock, a.checkedAt);
      LaterRemembers(e.history, log, clock, a.recordedAt);
      LaterRemembers(Prune(e.history, a.checkedAt), log, a.checkedAt, a.recordedAt);
    }
  }

  ghost predicate AllLimited(entries: seq<Entry>, logs: seq<seq<nat>>, clock: nat) {
    |logs| == |entries| && forall i :: 0 <= i < |entries| ==> Limited(entries[i], logs[i], clock)
  }

  lemma AllLimitedStep(entries: seq<Entry>, logs: seq<seq<nat>>, clock: nat, i: nat, e: Entry, log: seq<nat>, now: nat)
    requires AllLimited(entries, logs, clock) && i < |entries| && clock <= now && Limited(e, log, now)
    ensures AllLimited(entries[i := e], logs[i := log], now)
  {
    forall j | 0 <= j < |entries| && j != i ensures Limited(entries[j], logs[j], now) {
      if entries[j].spec.crashRestartLimit > 0 {
        LaterRemembers(entries[j].history, logs[j], clock, now);
      }
    }
  }

  /** The latest clock reading after a pass. */
  ghost function AfterPass(clock: nat, answers: seq<Answer>): nat {
    if answers == [] then clock else answers[|answers| - 1].recordedAt
  }

  ghost predicate ClockRuns(clock: nat, polls: seq<Poll>, entries: nat)
    decreases |polls|
  {
    polls == [] || polls[0].Signal?
    || (|polls[0].answers| == entries && Monotone(clock, polls[0].answers)
        && ClockRuns(AfterPass(clock, polls[0].answers), polls[1..], entries))
  }
}
