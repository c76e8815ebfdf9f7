/** The sliding-window limiter on automatic restarts, shared by the daemon
    (src/process_manager/restart.rs) and the foreground runtime
    (src/commands/runtime.rs). */
module CrashLimiter {

  const WINDOW_SECS: nat := 300

  /** Whether a restart recorded at `t` still counts at `now`. */
  predicate Recent(t: nat, now: nat) {
    now < t + WINDOW_SECS
  }

  /** Drops the restarts that left the window. */
  function Prune(history: seq<nat>, now: nat): (r: seq<nat>)
    ensures |r| <= |history|
  {
    if history == [] then []
    else
      var front := Prune(history[..|history| - 1], now);
      var last := history[|history| - 1];
      if Recent(last, now) then front + [last] else front
  }

  predicate LimitReached(history: seq<nat>, limit: nat, now: nat) {
    limit > 0 && |Prune(history, now)| >= limit
  }

  /** With the limit switched off nothing is recorded, nor pruned. */
  function Recorded(history: seq<nat>, limit: nat, now: nat): seq<nat> {
    if limit == 0 then history else Prune(history, now) + [now]
  }

  // ---------------------------------------------------------------------
  // What the limit means
  // ---------------------------------------------------------------------

  /** The restarts of the five minutes before `now`. */
  ghost function RecentRestarts(times: seq<nat>, now: nat): set<int> {
    set i | 0 <= i < |times| && now < times[i] + 300
  }

  lemma {:induction false} PruneCounts(history: seq<nat>, now: nat)
    ensures |Prune(history, now)| == |RecentRestarts(history, now)|
  {
    if history != [] {
      var last := |history| - 1;
      var front := history[..last];
      PruneCounts(front, now);
      if now < history[last] + 300 {
        assert RecentRestarts(history, now) == RecentRestarts(front, now) + {last};
      } else {
        assert RecentRestarts(history, now) == RecentRestarts(front, now);
      }
    }
  }

  /** The limit is reached exactly when it is on and that many restarts are recent. */
  lemma LimitReachedIff(history: seq<nat>, limit: nat, now: nat)
    ensures LimitReached(history, limit, now) <==> limit > 0 && |RecentRestarts(history, now)| >= limit
  {
    PruneCounts(history, now);
  }

  /** What the limiter remembers decides as all restarts ever recorded would. */
  lemma LogDecides(history: seq<nat>, log: seq<nat>, earlier: nat, limit: nat, now: nat)
    requires Remembers(history, log, earlier) && earlier <= now
    ensures LimitReached(history, limit, now) <==> limit > 0 && |RecentRestarts(log, now)| >= limit
  {
    var stale := log[..|log| - |history|];
    assert log == stale + history;
    StaleIsNotCounted(stale, history, now);
    PruneCounts(log, now);
  }

  lemma {:induction false} StaleIsNotCounted(stale: seq<nat>, history: seq<nat>, now: nat)
    requires forall i :: 0 <= i < |stale| ==> !Recent(stale[i], now)
    ensures Prune(stale + history, now) == Prune(history, now)
  {
    if history == [] {
      assert stale + history == stale;
      StaleIsDropped(stale, now);
    } else {
      var last := |history| - 1;
      StaleIsNotCounted(stale, history[..last], now);
      assert (stale + history)[..|stale + history| - 1] == stale + history[..last];
    }
  }

  // ---------------------------------------------------------------------
  // The guarantee over whole runs
  // ---------------------------------------------------------------------

  ghost predicate Ascending(times: seq<nat>) {
    forall i, j :: 0 <= i <= j < |times| ==> times[i] <= times[j]
  }

  /** `log` holds every restart ever recorded, `history` what the limiter still
      remembers of it at time `now`. */
  ghost predicate Remembers(history: seq<nat>, log: seq<nat>, now: nat) {
    && |history| <= |log| && history == log[|log| - |history|..]
    && Ascending(log) && (forall i :: 0 <= i < |log| ==> log[i] <= now)
    && (forall i :: 0 <= i < |log| - |history| ==> !Recent(log[i], now))
  }

  /** Any `limit + 1` consecutive restarts span at least a window. */
  ghost predicate Spaced(log: seq<nat>, limit: nat) {
    forall i :: 0 <= i && i + limit < |log| ==> log[i] + WINDOW_SECS <= log[i + limit]
  }

  lemma {:induction false} StaleIsDropped(history: seq<nat>, now: nat)
    requires forall i :: 0 <= i < |history| ==> !Recent(history[i], now)
    ensures Prune(history, now) == []
  {
    if history != [] {
      StaleIsDropped(history[..|history| - 1], now);
    }
  }

  /** Pruning keeps exactly the recent entries, so it forgets the first `d`. */
  lemma {:induction false} PruneForgetsPrefix(history: seq<nat>, now: nat) returns (d: nat)
    requires Ascending(history)
    ensures d <= |history| && Prune(history, now) == history[d..]
    ensures forall i :: 0 <= i < d ==> !Recent(history[i], now)
    ensures forall i :: d <= i < |history| ==> Recent(history[i], now)
  {
    if history == [] {
      d := 0;
    } else {
      var front, last := history[..|history| - 1], history[|history| - 1];
      assert history == front + [last];
      if Recent(last, now) {
        d := PruneForgetsPrefix(front, now);
        DropConcat(front, last, d);
        forall i | d <= i < |history| ensures Recent(history[i], now) {
          if i < |front| {
            assert Recent(front[i], now);
          }
        }
        forall i | 0 <= i < d ensures !Recent(history[i], now) {
          assert !Recent(front[i], now);
        }
      } else {
        d := |history|;
        StaleIsDropped(history, now);
      }
    }
  }

  lemma DropConcat(front: seq<nat>, last: nat, d: nat)
    requires d <= |front|
    ensures (front + [last])[d..] == front[d..] + [last]
  {
  }

  lemma PruneRemembers(history: seq<nat>, log: seq<nat>, earlier: nat, now: nat)
    requires Remembers(history, log, earlier) && earlier <= now
    ensures Remembers(Prune(history, now), log, now)
  {
    var forgotten := |log| - |history|;
    var d := PruneForgetsPrefix(history, now);
    assert log[forgotten + d..] == history[d..];
    forall i | 0 <= i < forgotten + d ensures !Recent(log[i], now) {
      if i >= forgotten {
        assert log[i] == history[i - forgotten];
      }
    }
  }

  /** Checking at `check` and recording at `record` keeps restarts spaced. */
  lemma RecordKeepsSpacing(history: seq<nat>, log: seq<nat>, limit: nat, earlier: nat, check: nat, record: nat)
    requires limit > 0 && earlier <= check <= record
    requires Remembers(history, log, earlier) && Spaced(log, limit)
    requires !LimitReached(history, limit, check)
    ensures Remembers(Recorded(Prune(history, check), limit, record), log + [record], record)
    ensures Spaced(log + [record], limit)
    ensures |Recorded(Prune(history, check), limit, record)| <= limit
  {
    var kept := Prune(history, check);
    PruneRemembers(history, log, earlier, check);
    PruneRemembers(kept, log, check, record);
    AppendRemembers(Prune(kept, record), log, record);
    if limit <= |log| {
      assert !Recent(log[|log| - limit], check);
      AppendSpaced(log, limit, record);
    }
  }

  lemma AppendRemembers(history: seq<nat>, log: seq<nat>, now: nat)
    requires Remembers(history, log, now)
    ensures Remembers(history + [now], log + [now], now)
  {
    var grown := log + [now];
    assert grown[|log| - |history|..] == log[|log| - |history|..] + [now];
  }

  lemma AppendSpaced(log: seq<nat>, limit: nat, now: nat)
    requires 0 < limit <= |log| && Spaced(log, limit) && log[|log| - limit] + WINDOW_SECS <= now
    ensures Spaced(log + [now], limit)
  {
    var grown := log + [now];
    forall i | 0 <= i && i + limit < |grown| ensures grown[i] + WINDOW_SECS <= grown[i + limit] {
      if i + limit == |log| {
        assert grown[i] == log[|log| - limit];
      }
    }
  }

  /** At most `limit` restarts fall into any interval of one window. */
  lemma WindowBound(log: seq<nat>, limit: nat, from: nat)
    requires limit > 0 && Spaced(log, limit) && Ascending(log)
    ensures |set i | 0 <= i < |log| && from <= log[i] < from + WINDOW_SECS| <= limit
  {
    var s := set i | 0 <= i < |log| && from <= log[i] < from + WINDOW_SECS;
    if s != {} {
      var lo := LeastIn(s, log, from);
      forall i | i in s ensures lo <= i < lo + limit {
        assert lo + limit < |log| ==> log[lo] + WINDOW_SECS <= log[lo + limit];
      }
      RangeSize(s, lo, limit);
    }
  }

  lemma LeastIn(s: set<int>, log: seq<nat>, from: nat) returns (lo: int)
    requires s == (set i | 0 <= i < |log| && from <= log[i] < from + WINDOW_SECS) && s != {}
    ensures lo in s && forall i :: i in s ==> lo <= i
  {
    lo :| lo in s;
    var rest := s - {lo};
    while rest != {}
      invariant rest <= s && lo in s
      invariant forall i :: i in s && i !in rest ==> lo <= i
      decreases |rest|
    {
      var i :| i in rest;
      lo := if i < lo then i else lo;
      rest := rest - {i};
    }
  }

  lemma {:induction false} RangeSize(s: set<int>, lo: int, n: nat)
    requires forall i :: i in s ==> lo <= i < lo + n
    ensures |s| <= n
    decreases n
  {
    if n > 0 {
      RangeSize(s - {lo + n - 1}, lo, n - 1);
    } else {
      assert forall i :: i !in s;
    }
  }
}
