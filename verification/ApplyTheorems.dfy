/** Running a plan against the daemon, and when applying twice changes nothing more. */
module ApplyTheorems {
  import opened Prelude
  import opened Domain
  import opened Text
  import opened Lifecycle
  import LifecycleInvariant
  import opened Daemon
  import opened Apply
  import Fingerprint
  import FingerprintTheorems

  // ---------------------------------------------------------------------
  // The listing a plan is made from
  // ---------------------------------------------------------------------

  /** The managed processes as a client sees them. */
  ghost function Listed(s: State): map<string, Sent> {
    map n | n in s.processes :: Redacted(s.processes[n])
  }

  lemma {:induction false} ByNameOf(current: seq<Sent>, m: map<string, Sent>)
    requires forall i :: 0 <= i < |current| ==> current[i].process.name in m && m[current[i].process.name] == current[i]
    ensures forall n :: n in ByName(current) ==> n in m && ByName(current)[n] == m[n]
    ensures forall i :: 0 <= i < |current| ==> current[i].process.name in ByName(current)
  {
    if current != [] {
      ByNameOf(current[..|current| - 1], m);
    }
  }

  lemma ByNameOfAll(current: seq<Sent>, m: map<string, Sent>)
    requires forall i :: 0 <= i < |current| ==> current[i].process.name in m && m[current[i].process.name] == current[i]
    requires forall n :: n in m ==> exists i :: 0 <= i < |current| && current[i].process.name == n
    ensures ByName(current) == m
  {
    ByNameOf(current, m);
  }

  lemma {:induction false} RedactedAllAt(l: seq<Proc>, i: nat)
    requires i < |l|
    ensures |RedactedAll(l)| == |l| && RedactedAll(l)[i] == Redacted(l[i])
    ensures RedactedAll(l)[i].process.name == l[i].name
  {
    if i < |l| - 1 {
      RedactedAllAt(l[..|l| - 1], i);
    } else {
      RedactedAllSize(l);
    }
  }

  lemma {:induction false} RedactedAllSize(l: seq<Proc>)
    ensures |RedactedAll(l)| == |l|
  {
    if l != [] {
      RedactedAllSize(l[..|l| - 1]);
    }
  }

  lemma ListingIsListed(s: State)
    requires LifecycleInvariant.Inv(s)
    ensures ByName(Answer(s, List).processes) == Listed(s)
  {
    InvIsWellFiled(s);
    var l := ListById(s.processes);
    OrderedHolds(s.processes, s.processes.Keys);
    ListedAt(s, l);
  }

  lemma ListedAt(s: State, l: seq<Proc>)
    requires forall p :: p in l <==> p.name in s.processes && s.processes[p.name] == p
    requires forall n :: n in s.processes ==> s.processes[n].name == n
    ensures ByName(RedactedAll(l)) == Listed(s)
  {
    var current, m := RedactedAll(l), Listed(s);
    RedactedAllSize(l);
    forall i | 0 <= i < |current|
      ensures current[i].process.name in m && m[current[i].process.name] == current[i]
    {
      RedactedAllAt(l, i);
      assert l[i] in l;
    }
    forall n | n in m ensures exists i :: 0 <= i < |current| && current[i].process.name == n {
      assert s.processes[n] in l;
      var i :| 0 <= i < |l| && l[i] == s.processes[n];
      RedactedAllAt(l, i);
      assert current[i].process.name == n;
    }
    ByNameOfAll(current, m);
  }

  lemma PayloadIsNotEmpty(c: Config)
    ensures Fingerprint.Payload(c) != ""
  {
  }

  /** What a match means. By fingerprint, clean settings match exactly when they are the
      same. Without one, a match ignores the five settings a daemon may not have sent,
      whatever the record behind the listing holds. */
  lemma MatchMeans(p: Proc, r: StartRequest)
    ensures FingerprintTheorems.Clean(p.config) && FingerprintTheorems.Clean(r.config) ==>
              (Matches(Redacted(p), r) <==> FingerprintTheorems.SameSettings(p.config, r.config))
    ensures Matches(Sent(WithoutSecrets(p), ""), r) <==>
            r.parses && exists e, h, l, u, c ::
              r.config == p.config.(env := e, pullSecretHash := h, logDateFormat := l, unifiedLogs := u, cronRestart := c)
  {
    PayloadIsNotEmpty(p.config);
    if FingerprintTheorems.Clean(p.config) && FingerprintTheorems.Clean(r.config) {
      FingerprintTheorems.PayloadIsFaithful(p.config, r.config);
    }
    var d := r.config;
    if SameShown(p.config, d) {
      assert d == p.config.(env := d.env, pullSecretHash := d.pullSecretHash, logDateFormat := d.logDateFormat,
                            unifiedLogs := d.unifiedLogs, cronRestart := d.cronRestart);
    }
  }

  // ---------------------------------------------------------------------
  // When there is nothing left to do
  // ---------------------------------------------------------------------

  ghost predicate HasSettings(s: State, r: StartRequest)
    requires r.name.Some?
  {
    r.name.value in s.processes
    && Fingerprint.Payload(s.processes[r.name.value].config) == Fingerprint.Payload(r.config)
  }

  /** Running with the desired settings. */
  ghost predicate Satisfied(s: State, r: StartRequest)
    requires r.name.Some?
  {
    HasSettings(s, r) && IsUp(s.processes[r.name.value])
  }

  ghost predicate AllSatisfied(s: State, desired: seq<StartRequest>)
    requires Named(desired)
  {
    forall i :: 0 <= i < |desired| ==> Satisfied(s, desired[i])
  }

  ghost predicate NothingToDo(actions: seq<Action>) {
    forall i :: 0 <= i < |actions| ==> actions[i] == Noop
  }

  lemma NoopIff(s: State, r: StartRequest)
    requires r.name.Some?
    ensures ActionFor(Listed(s), r) == Noop <==> Satisfied(s, r)
  {
    if r.name.value in s.processes {
      PayloadIsNotEmpty(s.processes[r.name.value].config);
    }
  }

  /** A plan is empty exactly when everything desired runs as desired and, with
      pruning, nothing else is managed. */
  lemma NothingToDoIff(s: State, desired: seq<StartRequest>, prune: bool)
    requires Named(desired)
    ensures NothingToDo(Plan(Listed(s), desired, prune))
            <==> AllSatisfied(s, desired) && (prune ==> s.processes.Keys <= NamesOf(desired))
  {
    FirstNothingIff(s, desired);
    assert Listed(s).Keys == s.processes.Keys;
    PlanNothingIff(DesiredActions(Listed(s), desired), Plan(Listed(s), desired, prune), Listed(s).Keys,
                   NamesOf(desired), prune);
  }

  lemma PlanNothingIff(first: seq<Action>, plan: seq<Action>, managed: set<string>, wanted: set<string>, prune: bool)
    requires plan == first + if prune then Deletions(Fingerprint.SortedKeys(managed - wanted)) else []
    ensures NothingToDo(plan) <==> NothingToDo(first) && (prune ==> managed <= wanted)
  {
    if prune {
      var stale := managed - wanted;
      SortedKeysAll(stale);
      NothingInEither(first, Fingerprint.SortedKeys(stale));
      EmptyIff(stale, Fingerprint.SortedKeys(stale));
      NothingLeftIff(managed, wanted);
    } else {
      assert first + [] == first;
    }
  }

  lemma NothingLeftIff(managed: set<string>, wanted: set<string>)
    ensures managed - wanted == {} <==> managed <= wanted
  {
    if managed - wanted == {} {
      forall n | n in managed ensures n in wanted {
        assert n !in managed - wanted;
      }
    }
  }

  lemma EmptyIff(keys: set<string>, listed: seq<string>)
    requires forall k :: k in keys <==> k in listed
    ensures listed == [] <==> keys == {}
  {
    if listed != [] {
      assert listed[0] in keys;
    }
  }

  lemma FirstNothingIff(s: State, desired: seq<StartRequest>)
    requires Named(desired)
    ensures NothingToDo(DesiredActions(Listed(s), desired)) <==> AllSatisfied(s, desired)
  {
    var first := DesiredActions(Listed(s), desired);
    forall i | 0 <= i < |desired| ensures first[i] == Noop <==> Satisfied(s, desired[i]) {
      NoopIff(s, desired[i]);
    }
  }

  lemma NothingInEither(first: seq<Action>, stale: seq<string>)
    ensures NothingToDo(first + Deletions(stale)) <==> NothingToDo(first) && stale == []
  {
    var plan := first + Deletions(stale);
    assert forall i :: 0 <= i < |first| ==> plan[i] == first[i];
    if stale != [] {
      assert plan[|first|] == DeleteApp(stale[0]);
    }
  }

  lemma SortedKeysAll(keys: set<string>)
    ensures forall k :: k in keys <==> k in Fingerprint.SortedKeys(keys)
    ensures forall i, j :: 0 <= i < j < |Fingerprint.SortedKeys(keys)| ==>
                             Fingerprint.SortedKeys(keys)[i] != Fingerprint.SortedKeys(keys)[j]
  {
    var s := Fingerprint.SortedKeys(keys);
    forall k ensures k in keys <==> k in s {
      assert k in keys <==> k in multiset(s);
    }
    forall i, j | 0 <= i < j < |s| ensures s[i] != s[j] {
      DifferentIfOnce(s, i, j);
    }
  }

  lemma DifferentIfOnce(s: seq<string>, i: nat, j: nat)
    requires i < j < |s| && multiset(s)[s[i]] <= 1
    ensures s[i] != s[j]
  {
    assert s == s[..i] + [s[i]] + s[i + 1..j] + [s[j]] + s[j + 1..];
  }

  // ---------------------------------------------------------------------
  // Settings the daemon does not keep as they are
  // ---------------------------------------------------------------------

  /** The daemon stores a desired configuration unchanged. */
  predicate StoredAsIs(c: Config) {
    c.stopTimeoutSecs > 0 && c.readyTimeoutSecs > 0 && c.clusterInstances != Some(0)
  }

  lemma SplitEqual(p: string, x: string, r: string, y: string, t: string)
    requires |x| == |y| && p + x + r == p + y + t
    ensures x == y && r == t
  {
    var a, b := p + x + r, p + y + t;
    assert x == a[|p|..|p| + |x|] && y == b[|p|..|p| + |x|];
    assert r == a[|p| + |x|..] && t == b[|p| + |x|..];
  }

  lemma LinesSplit(fields: seq<string>, v: seq<string>)
    requires |fields| == |v| > 0
    ensures Fingerprint.Lines(fields, v)
            == (fields[0] + "=") + v[0]
               + if |fields| == 1 then "" else [Fingerprint.LINE_END] + Fingerprint.Lines(fields[1..], v[1..])
  {
  }

  /** Texts of equally long values differ where the values do. */
  lemma {:induction false} EqualShapes(fields: seq<string>, v: seq<string>, w: seq<string>)
    requires |fields| == |v| == |w| > 0 && forall i :: 0 <= i < |v| ==> |v[i]| == |w[i]|
    requires Fingerprint.Lines(fields, v) == Fingerprint.Lines(fields, w)
    ensures v == w
  {
    LinesSplit(fields, v);
    LinesSplit(fields, w);
    if |fields| == 1 {
      SplitEqual(fields[0] + "=", v[0], "", w[0], "");
      assert v == [v[0]] && w == [w[0]];
    } else {
      var r, t := Fingerprint.Lines(fields[1..], v[1..]), Fingerprint.Lines(fields[1..], w[1..]);
      SplitEqual(fields[0] + "=", v[0], [Fingerprint.LINE_END] + r, w[0], [Fingerprint.LINE_END] + t);
      assert r == ([Fingerprint.LINE_END] + r)[1..] && t == ([Fingerprint.LINE_END] + t)[1..];
      EqualShapes(fields[1..], v[1..], w[1..]);
      assert v == [v[0]] + v[1..] && w == [w[0]] + w[1..];
    }
  }

  function TotalLength(v: seq<string>): nat {
    if v == [] then 0 else |v[0]| + TotalLength(v[1..])
  }

  lemma {:induction false} LinesLength(fields: seq<string>, v: seq<string>)
    requires |fields| == |v| > 0
    ensures |Fingerprint.Lines(fields, v)| == TotalLength(fields) + TotalLength(v) + 2 * |v| - 1
  {
    if |fields| > 1 {
      LinesLength(fields[1..], v[1..]);
    } else {
      assert TotalLength(fields) == |fields[0]| && TotalLength(v) == |v[0]|;
    }
  }

  lemma {:induction false} OneLonger(v: seq<string>, w: seq<string>, k: nat)
    requires |v| == |w| && k < |v| && forall i :: 0 <= i < |v| && i != k ==> |v[i]| == |w[i]|
    ensures TotalLength(v) - TotalLength(w) == |v[k]| - |w[k]|
  {
    if k > 0 {
      OneLonger(v[1..], w[1..], k - 1);
    } else {
      SameTotal(v[1..], w[1..]);
    }
  }

  lemma {:induction false} SameTotal(v: seq<string>, w: seq<string>)
    requires |v| == |w| && forall i :: 0 <= i < |v| ==> |v[i]| == |w[i]|
    ensures TotalLength(v) == TotalLength(w)
  {
    if v != [] {
      SameTotal(v[1..], w[1..]);
    }
  }

  lemma NormalizedLaunch(c: Config)
    ensures Fingerprint.LaunchValues(Normalized(c))
            == Fingerprint.LaunchValues(c)[7 := Decimal(AtLeastOne(c.stopTimeoutSecs))]
    ensures Fingerprint.LaunchValues(c)[7] == Decimal(c.stopTimeoutSecs)
  {
  }

  lemma NormalizedPlacement(c: Config)
    ensures Fingerprint.PlacementValues(Normalized(c))
            == Fingerprint.PlacementValues(c)[3 := Fingerprint.DebugNumber(Normalized(c).clusterInstances)]
                                             [10 := Decimal(AtLeastOne(c.readyTimeoutSecs))]
    ensures Fingerprint.PlacementValues(c)[3] == Fingerprint.DebugNumber(c.clusterInstances)
    ensures Fingerprint.PlacementValues(c)[10] == Decimal(c.readyTimeoutSecs)
  {
  }

  lemma NormalizedContent(c: Config)
    ensures Fingerprint.ContentValues(Normalized(c)) == Fingerprint.ContentValues(c)
  {
  }

  lemma Spliced(a: seq<string>, b: seq<string>, d: seq<string>, x: string, y: string, z: string)
    requires |a| == 10 && |b| == 11
    ensures a[7 := x] + b[3 := y][10 := z] + d == (a + b + d)[7 := x][13 := y][20 := z]
    ensures (a + b + d)[7] == a[7] && (a + b + d)[13] == b[3] && (a + b + d)[20] == b[10]
  {
  }

  lemma NormalizedTogether(c: Config)
    ensures Fingerprint.Values(Normalized(c))
            == Fingerprint.Values(c)[7 := Decimal(AtLeastOne(c.stopTimeoutSecs))]
                                    [13 := Fingerprint.DebugNumber(Normalized(c).clusterInstances)]
                                    [20 := Decimal(AtLeastOne(c.readyTimeoutSecs))]
    ensures Fingerprint.Values(c)[7] == Decimal(c.stopTimeoutSecs)
    ensures Fingerprint.Values(c)[13] == Fingerprint.DebugNumber(c.clusterInstances)
    ensures Fingerprint.Values(c)[20] == Decimal(c.readyTimeoutSecs)
  {
    NormalizedLaunch(c);
    NormalizedPlacement(c);
    NormalizedContent(c);
    Spliced(Fingerprint.LaunchValues(c), Fingerprint.PlacementValues(c), Fingerprint.ContentValues(c),
            Decimal(AtLeastOne(c.stopTimeoutSecs)), Fingerprint.DebugNumber(Normalized(c).clusterInstances),
            Decimal(AtLeastOne(c.readyTimeoutSecs)));
  }

  /** Replacing a zero by a one, and `Some(0)` by `None`, shows in the text. */
  lemma ReplacementShows(fields: seq<string>, v: seq<string>, w: seq<string>, x: string, y: string, z: string)
    requires |fields| == |v| > 20 && w == v[7 := x][13 := y][20 := z]
    requires |x| == |v[7]| && |z| == |v[20]|
    ensures Fingerprint.Lines(fields, v) == Fingerprint.Lines(fields, w) <==> v == w
  {
    if Fingerprint.Lines(fields, v) == Fingerprint.Lines(fields, w) {
      OneLonger(v, w, 13);
      LinesLength(fields, v);
      LinesLength(fields, w);
      EqualShapes(fields, v, w);
    }
  }

  lemma SmallNumbers(n: nat, o: Option<nat>)
    ensures |Decimal(AtLeastOne(n))| == |Decimal(n)| && (Decimal(AtLeastOne(n)) == Decimal(n) <==> n > 0)
    ensures Fingerprint.DebugNumber(Some(0)) != Fingerprint.DebugNumber(None)
  {
    assert |Decimal(0)| == 1 && |Decimal(1)| == 1 && Decimal(0) != Decimal(1);
  }

  /** The fingerprint of what the daemon stores is the one the planner computes
      exactly when no setting is replaced on the way in. */
  lemma StoredFingerprintIff(c: Config)
    ensures Fingerprint.Payload(Normalized(c)) == Fingerprint.Payload(c) <==> StoredAsIs(c)
  {
    var v, w := Fingerprint.Values(c), Fingerprint.Values(Normalized(c));
    NormalizedTogether(c);
    SmallNumbers(c.stopTimeoutSecs, c.clusterInstances);
    SmallNumbers(c.readyTimeoutSecs, c.clusterInstances);
    ReplacementShows(Fingerprint.FIELDS, v, w, w[7], w[13], w[20]);
    assert v == w <==> v[7] == w[7] && v[13] == w[13] && v[20] == w[20];
  }
}
