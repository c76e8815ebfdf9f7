/** The fingerprinted text is canonical, and faithful on settings free of its
    separator characters. */
module FingerprintTheorems {
  import opened Prelude
  import opened Domain
  import opened Text
  import opened Sorting
  import opened Fingerprint

  /** Equal up to what the text cannot tell apart on purpose: the order of watch
      paths and ignore patterns, and an absent against an empty text. */
  ghost predicate SameSettings(c: Config, d: Config) {
    && multiset(c.watchPaths) == multiset(d.watchPaths)
    && multiset(c.ignoreWatch) == multiset(d.ignoreWatch)
    && OrEmpty(c.cwd) == OrEmpty(d.cwd) && OrEmpty(c.preReloadCmd) == OrEmpty(d.preReloadCmd)
    && OrEmpty(c.stopSignal) == OrEmpty(d.stopSignal) && OrEmpty(c.logDateFormat) == OrEmpty(d.logDateFormat)
    && OrEmpty(c.cronRestart) == OrEmpty(d.cronRestart)
    && d == c.(watchPaths := d.watchPaths, ignoreWatch := d.ignoreWatch, cwd := d.cwd, preReloadCmd := d.preReloadCmd,
               stopSignal := d.stopSignal, logDateFormat := d.logDateFormat, cronRestart := d.cronRestart)
  }

  /** No setting contains a character the text uses to separate it from the next. */
  ghost predicate Clean(c: Config) {
    && Free(c.command, LINE_END)
    && (forall i :: 0 <= i < |c.args| ==> Free(c.args[i], LINE_END) && Free(c.args[i], ARG_END))
    && Free(OrEmpty(c.cwd), LINE_END) && Free(OrEmpty(c.preReloadCmd), LINE_END)
    && (forall i :: 0 <= i < |c.watchPaths| ==> Free(c.watchPaths[i], LINE_END) && Free(c.watchPaths[i], PATH_END))
    && (forall i :: 0 <= i < |c.ignoreWatch| ==> Free(c.ignoreWatch[i], LINE_END) && Free(c.ignoreWatch[i], PATH_END))
    && Free(OrEmpty(c.stopSignal), LINE_END)
    && (forall k :: k in c.env ==> Free(k, LINE_END) && Free(k, ENV_END) && Free(k, '='))
    && (forall k :: k in c.env ==> Free(c.env[k], LINE_END) && Free(c.env[k], ENV_END))
    && (c.healthCheck.Some? ==> Free(c.healthCheck.value.command, LINE_END))
    && (c.resourceLimits.Some? ==> Free(OrEmpty(c.resourceLimits.value.maxCpuPercent), LINE_END)
                                   && Free(OrEmpty(c.resourceLimits.value.maxCpuPercent), '|'))
    && Free(OrEmpty(c.logDateFormat), LINE_END) && Free(OrEmpty(c.cronRestart), LINE_END)
  }

  // ---------------------------------------------------------------------
  // Splitting at the first separator
  // ---------------------------------------------------------------------

  lemma FirstEnd(whole: string, a: string, end: char, r: string)
    requires Free(a, end) && whole == a + [end] + r
    ensures |a| < |whole| && whole[|a|] == end && forall i :: 0 <= i < |a| ==> whole[i] != end
    ensures whole[..|a|] == a && whole[|a| + 1..] == r
  {
  }

  lemma SplitFirst(a: string, b: string, end: char, r: string, t: string)
    requires Free(a, end) && Free(b, end) && a + [end] + r == b + [end] + t
    ensures a == b && r == t
  {
    FirstEnd(a + [end] + r, a, end, r);
    FirstEnd(a + [end] + r, b, end, t);
    assert |a| == |b|;
  }

  ghost predicate AllFree(items: seq<string>, end: char) {
    forall i :: 0 <= i < |items| ==> Free(items[i], end)
  }

  lemma {:induction false} TerminatedInjective(a: seq<string>, b: seq<string>, end: char)
    requires AllFree(a, end) && AllFree(b, end) && Terminated(a, end) == Terminated(b, end)
    ensures a == b
  {
    if a != [] && b != [] {
      SplitFirst(a[0], b[0], end, Terminated(a[1..], end), Terminated(b[1..], end));
      TerminatedInjective(a[1..], b[1..], end);
      assert a == [a[0]] + a[1..] && b == [b[0]] + b[1..];
    }
  }

  lemma {:induction false} TerminatedFree(items: seq<string>, end: char, c: char)
    requires AllFree(items, c) && end != c
    ensures Free(Terminated(items, end), c)
  {
    if items != [] {
      TerminatedFree(items[1..], end, c);
    }
  }

  lemma StripPrefix(p: string, a: string, b: string)
    requires p + a == p + b
    ensures a == b
  {
    assert a == (p + a)[|p|..] && b == (p + b)[|p|..];
  }

  lemma {:induction false} LinesInjective(fields: seq<string>, a: seq<string>, b: seq<string>)
    requires |fields| == |a| == |b| > 0
    requires AllFree(a, LINE_END) && AllFree(b, LINE_END)
    requires Lines(fields, a) == Lines(fields, b)
    ensures a == b
  {
    var prefix := fields[0] + "=";
    if |fields| == 1 {
      StripPrefix(prefix, a[0], b[0]);
    } else {
      var x, y := Lines(fields[1..], a[1..]), Lines(fields[1..], b[1..]);
      assert Lines(fields, a) == prefix + (a[0] + [LINE_END] + x);
      assert Lines(fields, b) == prefix + (b[0] + [LINE_END] + y);
      StripPrefix(prefix, a[0] + [LINE_END] + x, b[0] + [LINE_END] + y);
      SplitFirst(a[0], b[0], LINE_END, x, y);
      LinesInjective(fields[1..], a[1..], b[1..]);
    }
    assert a == [a[0]] + a[1..] && b == [b[0]] + b[1..];
  }

  // ---------------------------------------------------------------------
  // Fields
  // ---------------------------------------------------------------------

  lemma EscapeIsPrefixFree(a: char, r: string, b: char, t: string)
    requires Escaped(a) + r == Escaped(b) + t
    ensures a == b && r == t
  {
    var x, y := Escaped(a), Escaped(b);
    var whole := x + r;
    assert whole[0] == x[0] && whole[0] == y[0];
    assert |x| == 2 <==> x[0] == '\\';
    assert |y| == 2 <==> y[0] == '\\';
    if |x| == 2 {
      assert whole[1] == x[1] && whole[1] == y[1];
    }
    assert r == whole[|x|..] && t == whole[|y|..];
  }

  lemma {:induction false} EscapedInjective(a: string, b: string)
    requires EscapedText(a) == EscapedText(b)
    ensures a == b
  {
    if a != "" && b != "" {
      EscapeIsPrefixFree(a[0], EscapedText(a[1..]), b[0], EscapedText(b[1..]));
      EscapedInjective(a[1..], b[1..]);
      assert a == [a[0]] + a[1..] && b == [b[0]] + b[1..];
    }
  }

  lemma {:induction false} EscapedFree(s: string)
    ensures Free(EscapedText(s), LINE_END)
  {
    if s != "" {
      EscapedFree(s[1..]);
    }
  }

  lemma DebugTextInjective(a: Option<string>, b: Option<string>)
    requires DebugText(a) == DebugText(b)
    ensures a == b
  {
    var x, y := DebugText(a), DebugText(b);
    assert a.Some? ==> x[0] == 'S';
    assert b.Some? ==> y[0] == 'S';
    if a.Some? && b.Some? {
      assert EscapedText(a.value) == x[6..|x| - 2] && EscapedText(b.value) == y[6..|y| - 2];
      EscapedInjective(a.value, b.value);
    }
  }

  lemma DebugNumberInjective(a: Option<nat>, b: Option<nat>)
    requires DebugNumber(a) == DebugNumber(b)
    ensures a == b
  {
    var x, y := DebugNumber(a), DebugNumber(b);
    assert a.Some? ==> x[0] == 'S';
    assert b.Some? ==> y[0] == 'S';
    if a.Some? && b.Some? {
      assert Decimal(a.value) == x[5..|x| - 1] && Decimal(b.value) == y[5..|y| - 1];
      DecimalInjective(a.value, b.value);
    }
  }

  lemma DebugPrintedInjective(a: Option<string>, b: Option<string>)
    requires DebugPrinted(a) == DebugPrinted(b)
    ensures a == b
  {
    var x, y := DebugPrinted(a), DebugPrinted(b);
    assert a.Some? ==> x[0] == 'S';
    assert b.Some? ==> y[0] == 'S';
    if a.Some? && b.Some? {
      assert a.value == x[5..|x| - 1] && b.value == y[5..|y| - 1];
    }
  }

  lemma FlagInjective(a: bool, b: bool)
    requires Flag(a) == Flag(b)
    ensures a == b
  {
    assert Flag(a)[0] == if a then 't' else 'f';
    assert Flag(b)[0] == if b then 't' else 'f';
  }

  lemma PolicyInjective(a: RestartPolicy, b: RestartPolicy)
    requires PolicyText(a) == PolicyText(b)
    ensures a == b
  {
    assert PolicyText(a)[0] == match a case Always => 'a' case OnFailure => 'o' case Never => 'n';
    assert PolicyText(b)[0] == match b case Always => 'a' case OnFailure => 'o' case Never => 'n';
  }

  lemma LastBar(whole: string, a: string, x: string)
    requires Free(x, '|') && whole == a + "|" + x
    ensures |a| < |whole| && whole[|a|] == '|' && forall i :: |a| < i < |whole| ==> whole[i] != '|'
    ensures whole[..|a|] == a && whole[|a| + 1..] == x
  {
  }

  /** Split at the last bar: the command of a health check may contain bars itself. */
  lemma SplitLast(a: string, x: string, b: string, y: string)
    requires Free(x, '|') && Free(y, '|') && a + "|" + x == b + "|" + y
    ensures a == b && x == y
  {
    LastBar(a + "|" + x, a, x);
    LastBar(a + "|" + x, b, y);
    assert |a| == |b|;
  }

  lemma HealthInjective(a: Option<HealthCheck>, b: Option<HealthCheck>)
    requires HealthText(a) == HealthText(b)
    ensures a == b
  {
    HealthShape(a);
    HealthShape(b);
    if a.Some? && b.Some? {
      var h, g := a.value, b.value;
      var h1, g1 := h.command + "|" + Decimal(h.intervalSecs), g.command + "|" + Decimal(g.intervalSecs);
      SplitLast(h1 + "|" + Decimal(h.timeoutSecs), Decimal(h.maxFailures), g1 + "|" + Decimal(g.timeoutSecs), Decimal(g.maxFailures));
      SplitLast(h1, Decimal(h.timeoutSecs), g1, Decimal(g.timeoutSecs));
      SplitLast(h.command, Decimal(h.intervalSecs), g.command, Decimal(g.intervalSecs));
      DecimalInjective(h.maxFailures, g.maxFailures);
      DecimalInjective(h.timeoutSecs, g.timeoutSecs);
      DecimalInjective(h.intervalSecs, g.intervalSecs);
    }
  }

  lemma HealthShape(a: Option<HealthCheck>)
    ensures a.None? ==> HealthText(a) == ""
    ensures a.Some? ==> HealthText(a) == ((a.value.command + "|" + Decimal(a.value.intervalSecs)) + "|"
                                          + Decimal(a.value.timeoutSecs)) + "|" + Decimal(a.value.maxFailures)
                        && HealthText(a) != ""
  {
    if a.Some? {
      PipedFour(a.value.command, Decimal(a.value.intervalSecs), Decimal(a.value.timeoutSecs), Decimal(a.value.maxFailures));
    }
  }

  lemma PipedFour(p: string, q: string, r: string, s: string)
    ensures Piped([p, q, r, s]) == ((p + "|" + q) + "|" + r) + "|" + s
  {
    assert [p, q, r, s][1..] == [q, r, s];
    assert [q, r, s][1..] == [r, s];
    assert [r, s][1..] == [s];
    assert Piped([r, s]) == r + "|" + s;
    assert Piped([q, r, s]) == q + "|" + (r + "|" + s);
    assert Piped([p, q, r, s]) == p + "|" + (q + "|" + (r + "|" + s));
  }

  lemma PipedFree(p: string, q: string, r: string, s: string, c: char)
    requires Free(p, c) && Free(q, c) && Free(r, c) && Free(s, c) && c != '|'
    ensures Free(Piped([p, q, r, s]), c)
  {
    PipedFour(p, q, r, s);
  }

  lemma LimitsShape(a: Option<ResourceLimits>)
    ensures a.None? ==> LimitsText(a) == ""
    ensures a.Some? ==> LimitsText(a) == ((DebugNumber(a.value.maxMemoryMb) + "|" + DebugPrinted(a.value.maxCpuPercent)) + "|"
                                          + Flag(a.value.cgroupEnforce)) + "|" + Flag(a.value.denyGpu)
                        && LimitsText(a) != ""
  {
    if a.Some? {
      PipedFour(DebugNumber(a.value.maxMemoryMb), DebugPrinted(a.value.maxCpuPercent), Flag(a.value.cgroupEnforce),
                Flag(a.value.denyGpu));
    }
  }

  lemma LimitsInjective(a: Option<ResourceLimits>, b: Option<ResourceLimits>)
    requires LimitsText(a) == LimitsText(b)
    requires a.Some? ==> Free(OrEmpty(a.value.maxCpuPercent), '|')
    requires b.Some? ==> Free(OrEmpty(b.value.maxCpuPercent), '|')
    ensures a == b
  {
    LimitsShape(a);
    LimitsShape(b);
    if a.Some? && b.Some? {
      LimitPartsInjective(a.value, b.value);
    }
  }

  lemma LimitPartsInjective(l: ResourceLimits, m: ResourceLimits)
    requires Free(OrEmpty(l.maxCpuPercent), '|') && Free(OrEmpty(m.maxCpuPercent), '|')
    requires ((DebugNumber(l.maxMemoryMb) + "|" + DebugPrinted(l.maxCpuPercent)) + "|" + Flag(l.cgroupEnforce)) + "|"
             + Flag(l.denyGpu)
             == ((DebugNumber(m.maxMemoryMb) + "|" + DebugPrinted(m.maxCpuPercent)) + "|" + Flag(m.cgroupEnforce)) + "|"
                + Flag(m.denyGpu)
    ensures l == m
  {
    var l2, m2 := DebugPrinted(l.maxCpuPercent), DebugPrinted(m.maxCpuPercent);
    var l1, m1 := DebugNumber(l.maxMemoryMb), DebugNumber(m.maxMemoryMb);
    PrintedFree(l.maxCpuPercent);
    PrintedFree(m.maxCpuPercent);
    FlagsFree(l.cgroupEnforce, l.denyGpu);
    FlagsFree(m.cgroupEnforce, m.denyGpu);
    SplitLast((l1 + "|" + l2) + "|" + Flag(l.cgroupEnforce), Flag(l.denyGpu),
              (m1 + "|" + m2) + "|" + Flag(m.cgroupEnforce), Flag(m.denyGpu));
    SplitLast(l1 + "|" + l2, Flag(l.cgroupEnforce), m1 + "|" + m2, Flag(m.cgroupEnforce));
    SplitLast(l1, l2, m1, m2);
    FlagInjective(l.denyGpu, m.denyGpu);
    FlagInjective(l.cgroupEnforce, m.cgroupEnforce);
    DebugPrintedInjective(l.maxCpuPercent, m.maxCpuPercent);
    DebugNumberInjective(l.maxMemoryMb, m.maxMemoryMb);
  }

  lemma PrintedFree(o: Option<string>)
    requires Free(OrEmpty(o), '|')
    ensures Free(DebugPrinted(o), '|')
  {
  }

  lemma FlagsFree(a: bool, b: bool)
    ensures Free(Flag(a), '|') && Free(Flag(b), '|')
  {
  }

  /** The key of an item is everything before its first equals sign. */
  lemma ItemInjective(k: string, v: string, l: string, w: string)
    requires Free(k, '=') && Free(l, '=') && k + "=" + v == l + "=" + w
    ensures k == l && v == w
  {
    SplitFirst(k, l, '=', v, w);
  }

  ghost predicate ItemsSplit(e: map<string, string>) {
    forall k :: k in e ==> Free(k, ENV_END) && Free(k, '=') && Free(e[k], ENV_END)
  }

  lemma EnvInjective(e: map<string, string>, f: map<string, string>)
    requires ItemsSplit(e) && ItemsSplit(f) && EnvText(e) == EnvText(f)
    ensures e == f
  {
    var ks, ls := SortedKeys(e.Keys), SortedKeys(f.Keys);
    ItemsFree(e, ks);
    ItemsFree(f, ls);
    TerminatedInjective(EnvItems(ks, e), EnvItems(ls, f), ENV_END);
    SameKeys(e, f, ks, ls);
    SameItems(e, f, ks, ls);
  }

  lemma ItemsFree(e: map<string, string>, ks: seq<string>)
    requires ItemsSplit(e) && forall i :: 0 <= i < |ks| ==> ks[i] in e
    ensures AllFree(EnvItems(ks, e), ENV_END)
  {
  }

  lemma SameKeys(e: map<string, string>, f: map<string, string>, ks: seq<string>, ls: seq<string>)
    requires ItemsSplit(e) && ItemsSplit(f)
    requires (forall i :: 0 <= i < |ks| ==> ks[i] in e) && (forall i :: 0 <= i < |ls| ==> ls[i] in f)
    requires EnvItems(ks, e) == EnvItems(ls, f)
    ensures ks == ls && forall i :: 0 <= i < |ks| ==> e[ks[i]] == f[ks[i]]
  {
    var items := EnvItems(ks, e);
    assert |ks| == |items| == |ls|;
    forall i | 0 <= i < |ks| ensures ks[i] == ls[i] && e[ks[i]] == f[ls[i]] {
      assert items[i] == ks[i] + "=" + e[ks[i]] && items[i] == ls[i] + "=" + f[ls[i]];
      ItemInjective(ks[i], e[ks[i]], ls[i], f[ls[i]]);
    }
  }

  lemma SameItems(e: map<string, string>, f: map<string, string>, ks: seq<string>, ls: seq<string>)
    requires Lists(ks, e.Keys) && Lists(ls, f.Keys) && ks == ls
    requires forall i :: 0 <= i < |ks| ==> ks[i] in e && ks[i] in f && e[ks[i]] == f[ks[i]]
    ensures e == f
  {
    forall k ensures k in e <==> k in f {
      assert k in e.Keys <==> k in multiset(ks);
      assert k in f.Keys <==> k in multiset(ls);
    }
    forall k | k in e ensures e[k] == f[k] {
      assert k in multiset(ks);
    }
  }

  // ---------------------------------------------------------------------
  // No field of clean settings spills into the next line
  // ---------------------------------------------------------------------

  lemma EnvFree(e: map<string, string>)
    requires forall k :: k in e ==> Free(k, LINE_END) && Free(e[k], LINE_END)
    ensures Free(EnvText(e), LINE_END)
  {
    TerminatedFree(EnvItems(SortedKeys(e.Keys), e), ENV_END, LINE_END);
  }

  lemma SortedFree(items: seq<string>, c: char)
    requires AllFree(items, c)
    ensures AllFree(Sorted(items), c)
  {
    SortedIsSorted(items);
    forall i | 0 <= i < |Sorted(items)| ensures Free(Sorted(items)[i], c) {
      assert Sorted(items)[i] in multiset(items);
    }
  }

  lemma DebugTextFree(o: Option<string>)
    ensures Free(DebugText(o), LINE_END)
  {
    if o.Some? {
      EscapedFree(o.value);
    }
  }

  lemma HealthFree(h: Option<HealthCheck>)
    requires h.Some? ==> Free(h.value.command, LINE_END)
    ensures Free(HealthText(h), LINE_END)
  {
    if h.Some? {
      PipedFree(h.value.command, Decimal(h.value.intervalSecs), Decimal(h.value.timeoutSecs),
                Decimal(h.value.maxFailures), LINE_END);
    }
  }

  lemma LimitsFree(l: Option<ResourceLimits>)
    requires l.Some? ==> Free(OrEmpty(l.value.maxCpuPercent), LINE_END)
    ensures Free(LimitsText(l), LINE_END)
  {
    if l.Some? {
      PipedFree(DebugNumber(l.value.maxMemoryMb), DebugPrinted(l.value.maxCpuPercent), Flag(l.value.cgroupEnforce),
                Flag(l.value.denyGpu), LINE_END);
    }
  }

  lemma LaunchFree(c: Config)
    requires Clean(c)
    ensures AllFree(LaunchValues(c), LINE_END)
  {
    TerminatedFree(c.args, ARG_END, LINE_END);
  }

  lemma PlainFree(b: bool, n: nat, o: Option<nat>)
    ensures Free(Flag(b), LINE_END) && Free(Decimal(n), LINE_END) && Free(DebugNumber(o), LINE_END)
  {
  }

  lemma PlacementFree(c: Config)
    ensures AllFree(PlacementValues(c), LINE_END)
  {
    PlainFree(c.watch, c.watchDelaySecs, c.clusterInstances);
    PlainFree(c.clusterMode, c.readyTimeoutSecs, None);
    PlainFree(c.reusePort, 0, None);
    PlainFree(c.waitReady, 0, None);
    DebugTextFree(c.namespace);
    DebugTextFree(c.gitRepo);
    DebugTextFree(c.gitRef);
    DebugTextFree(c.pullSecretHash);
    var v := PlacementValues(c);
    forall i | 0 <= i < |v| ensures Free(v[i], LINE_END) {
      assert i in {0, 1, 2, 3, 4, 5, 6, 7, 8, 9, 10};
    }
  }

  lemma PathsFree(items: seq<string>)
    requires AllFree(items, LINE_END)
    ensures Free(Terminated(Sorted(items), PATH_END), LINE_END)
  {
    SortedFree(items, LINE_END);
    TerminatedFree(Sorted(items), PATH_END, LINE_END);
  }

  lemma ContentFree(c: Config)
    requires Clean(c)
    ensures AllFree(ContentValues(c), LINE_END)
  {
    PathsFree(c.watchPaths);
    PathsFree(c.ignoreWatch);
    EnvFree(c.env);
    HealthFree(c.healthCheck);
    LimitsFree(c.resourceLimits);
    PlainFree(c.unifiedLogs, 0, None);
    var v := ContentValues(c);
    forall i | 0 <= i < |v| ensures Free(v[i], LINE_END) {
      assert i in {0, 1, 2, 3, 4, 5, 6, 7, 8};
    }
  }

  lemma ValuesFree(c: Config)
    requires Clean(c)
    ensures AllFree(Values(c), LINE_END)
  {
    LaunchFree(c);
    PlacementFree(c);
    ContentFree(c);
    FreeConcat(LaunchValues(c), PlacementValues(c), LINE_END);
    FreeConcat(LaunchValues(c) + PlacementValues(c), ContentValues(c), LINE_END);
  }

  lemma FreeConcat(a: seq<string>, b: seq<string>, c: char)
    requires AllFree(a, c) && AllFree(b, c)
    ensures AllFree(a + b, c)
  {
  }

  // ---------------------------------------------------------------------
  // Main results
  // ---------------------------------------------------------------------

  /** Canonical: settings that agree up to the unordered parts have the same text. */
  lemma PayloadIsCanonical(c: Config, d: Config)
    requires SameSettings(c, d)
    ensures Payload(c) == Payload(d)
  {
    SortedIsCanonical(c.watchPaths, d.watchPaths);
    SortedIsCanonical(c.ignoreWatch, d.ignoreWatch);
    assert Values(c) == Values(d);
  }

  lemma LaunchInjective(c: Config, d: Config)
    requires Clean(c) && Clean(d) && LaunchValues(c) == LaunchValues(d)
    ensures c.command == d.command && c.args == d.args && OrEmpty(c.cwd) == OrEmpty(d.cwd)
    ensures OrEmpty(c.preReloadCmd) == OrEmpty(d.preReloadCmd) && c.restartPolicy == d.restartPolicy
    ensures c.maxRestarts == d.maxRestarts && c.crashRestartLimit == d.crashRestartLimit
    ensures c.stopTimeoutSecs == d.stopTimeoutSecs && c.restartDelaySecs == d.restartDelaySecs
    ensures c.startDelaySecs == d.startDelaySecs
  {
    var v, w := LaunchValues(c), LaunchValues(d);
    assert v[0] == w[0] && v[2] == w[2] && v[3] == w[3];
    TerminatedInjective(c.args, d.args, ARG_END) by { assert v[1] == w[1]; }
    PolicyInjective(c.restartPolicy, d.restartPolicy) by { assert v[4] == w[4]; }
    DecimalInjective(c.maxRestarts, d.maxRestarts) by { assert v[5] == w[5]; }
    DecimalInjective(c.crashRestartLimit, d.crashRestartLimit) by { assert v[6] == w[6]; }
    DecimalInjective(c.stopTimeoutSecs, d.stopTimeoutSecs) by { assert v[7] == w[7]; }
    DecimalInjective(c.restartDelaySecs, d.restartDelaySecs) by { assert v[8] == w[8]; }
    DecimalInjective(c.startDelaySecs, d.startDelaySecs) by { assert v[9] == w[9]; }
  }

  lemma PlacementInjective(c: Config, d: Config)
    requires PlacementValues(c) == PlacementValues(d)
    ensures c.watch == d.watch && c.watchDelaySecs == d.watchDelaySecs && c.clusterMode == d.clusterMode
    ensures c.clusterInstances == d.clusterInstances && c.namespace == d.namespace && c.gitRepo == d.gitRepo
    ensures c.gitRef == d.gitRef && c.pullSecretHash == d.pullSecretHash && c.reusePort == d.reusePort
    ensures c.waitReady == d.waitReady && c.readyTimeoutSecs == d.readyTimeoutSecs
  {
    var v, w := PlacementValues(c), PlacementValues(d);
    FlagInjective(c.watch, d.watch) by { assert v[0] == w[0]; }
    DecimalInjective(c.watchDelaySecs, d.watchDelaySecs) by { assert v[1] == w[1]; }
    FlagInjective(c.clusterMode, d.clusterMode) by { assert v[2] == w[2]; }
    DebugNumberInjective(c.clusterInstances, d.clusterInstances) by { assert v[3] == w[3]; }
    DebugTextInjective(c.namespace, d.namespace) by { assert v[4] == w[4]; }
    DebugTextInjective(c.gitRepo, d.gitRepo) by { assert v[5] == w[5]; }
    DebugTextInjective(c.gitRef, d.gitRef) by { assert v[6] == w[6]; }
    DebugTextInjective(c.pullSecretHash, d.pullSecretHash) by { assert v[7] == w[7]; }
    FlagInjective(c.reusePort, d.reusePort) by { assert v[8] == w[8]; }
    FlagInjective(c.waitReady, d.waitReady) by { assert v[9] == w[9]; }
    DecimalInjective(c.readyTimeoutSecs, d.readyTimeoutSecs) by { assert v[10] == w[10]; }
  }

  lemma ContentInjective(c: Config, d: Config)
    requires Clean(c) && Clean(d) && ContentValues(c) == ContentValues(d)
    ensures multiset(c.watchPaths) == multiset(d.watchPaths) && multiset(c.ignoreWatch) == multiset(d.ignoreWatch)
    ensures OrEmpty(c.stopSignal) == OrEmpty(d.stopSignal) && c.env == d.env && c.healthCheck == d.healthCheck
    ensures c.resourceLimits == d.resourceLimits && OrEmpty(c.logDateFormat) == OrEmpty(d.logDateFormat)
    ensures c.unifiedLogs == d.unifiedLogs && OrEmpty(c.cronRestart) == OrEmpty(d.cronRestart)
  {
    var v, w := ContentValues(c), ContentValues(d);
    assert v[2] == w[2] && v[6] == w[6] && v[8] == w[8];
    PathsInjective(c.watchPaths, d.watchPaths) by { assert v[0] == w[0]; }
    PathsInjective(c.ignoreWatch, d.ignoreWatch) by { assert v[1] == w[1]; }
    EnvInjective(c.env, d.env) by { assert v[3] == w[3]; }
    HealthInjective(c.healthCheck, d.healthCheck) by { assert v[4] == w[4]; }
    LimitsInjective(c.resourceLimits, d.resourceLimits) by { assert v[5] == w[5]; }
    FlagInjective(c.unifiedLogs, d.unifiedLogs) by { assert v[7] == w[7]; }
  }

  lemma ValuesInjective(c: Config, d: Config)
    requires Clean(c) && Clean(d) && Values(c) == Values(d)
    ensures SameSettings(c, d)
  {
    var v, w := Values(c), Values(d);
    LaunchInjective(c, d) by { assert LaunchValues(c) == v[..10] == w[..10] == LaunchValues(d); }
    PlacementInjective(c, d) by { assert PlacementValues(c) == v[10..21] == w[10..21] == PlacementValues(d); }
    ContentInjective(c, d) by { assert ContentValues(c) == v[21..] == w[21..] == ContentValues(d); }
  }

  lemma PathsInjective(a: seq<string>, b: seq<string>)
    requires AllFree(a, PATH_END) && AllFree(b, PATH_END)
    requires Terminated(Sorted(a), PATH_END) == Terminated(Sorted(b), PATH_END)
    ensures multiset(a) == multiset(b)
  {
    SortedFree(a, PATH_END);
    SortedFree(b, PATH_END);
    TerminatedInjective(Sorted(a), Sorted(b), PATH_END);
    SortedIsCanonical(a, b);
  }

  /** Faithful: on clean settings the text decides equality. */
  lemma PayloadIsFaithful(c: Config, d: Config)
    requires Clean(c) && Clean(d)
    ensures Payload(c) == Payload(d) <==> SameSettings(c, d)
  {
    if SameSettings(c, d) {
      PayloadIsCanonical(c, d);
    }
    if Payload(c) == Payload(d) {
      ValuesFree(c);
      ValuesFree(d);
      LinesInjective(FIELDS, Values(c), Values(d));
      ValuesInjective(c, d);
    }
  }

  // ---------------------------------------------------------------------
  // Separators inside settings
  // ---------------------------------------------------------------------

  /** An argument cut at every separator in it. */
  function Pieces(arg: string): (r: seq<string>)
    ensures r != []
  {
    if arg == "" then [""]
    else
      var rest := Pieces(arg[1..]);
      if arg[0] == ARG_END then [""] + rest else [[arg[0]] + rest[0]] + rest[1..]
  }

  function SplitArgs(args: seq<string>): seq<string> {
    if args == [] then [] else Pieces(args[0]) + SplitArgs(args[1..])
  }

  lemma {:induction false} TerminatedJoined(a: seq<string>, b: seq<string>, end: char)
    ensures Terminated(a + b, end) == Terminated(a, end) + Terminated(b, end)
  {
    if a == [] {
      assert a + b == b;
    } else {
      TerminatedJoined(a[1..], b, end);
      assert (a + b)[1..] == a[1..] + b;
      Associative(a[0] + [end], Terminated(a[1..], end), Terminated(b, end));
    }
  }

  lemma {:induction false} PiecesAreTheArg(arg: string)
    ensures Terminated(Pieces(arg), ARG_END) == arg + [ARG_END]
    ensures AllFree(Pieces(arg), ARG_END)
    ensures Free(arg, ARG_END) <==> Pieces(arg) == [arg]
  {
    if arg == "" {
      assert Terminated([""], ARG_END) == "" + [ARG_END] + Terminated([""][1..], ARG_END);
    } else {
      PiecesAreTheArg(arg[1..]);
      CutOnce(arg, Pieces(arg[1..]));
    }
  }

  lemma CutOnce(arg: string, rest: seq<string>)
    requires arg != "" && rest != [] && Terminated(rest, ARG_END) == arg[1..] + [ARG_END] && AllFree(rest, ARG_END)
    requires Free(arg[1..], ARG_END) <==> rest == [arg[1..]]
    ensures var r := if arg[0] == ARG_END then [""] + rest else [[arg[0]] + rest[0]] + rest[1..];
            && Terminated(r, ARG_END) == arg + [ARG_END] && AllFree(r, ARG_END)
            && (Free(arg, ARG_END) <==> r == [arg])
  {
    if arg[0] == ARG_END {
      CutHere(arg, rest);
    } else {
      CutLater(arg, rest);
      FreeCut(arg);
      assert arg == [arg[0]] + arg[1..];
    }
  }

  lemma CutHere(arg: string, rest: seq<string>)
    requires arg != "" && arg[0] == ARG_END && rest != []
    requires Terminated(rest, ARG_END) == arg[1..] + [ARG_END] && AllFree(rest, ARG_END)
    ensures Terminated([""] + rest, ARG_END) == arg + [ARG_END] && AllFree([""] + rest, ARG_END)
    ensures !Free(arg, ARG_END) && [""] + rest != [arg]
  {
    assert ([""] + rest)[1..] == rest;
    assert arg == [arg[0]] + arg[1..];
  }

  lemma CutLater(arg: string, rest: seq<string>)
    requires arg != "" && arg[0] != ARG_END && rest != []
    requires Terminated(rest, ARG_END) == arg[1..] + [ARG_END] && AllFree(rest, ARG_END)
    ensures var r := [[arg[0]] + rest[0]] + rest[1..];
            && Terminated(r, ARG_END) == arg + [ARG_END] && AllFree(r, ARG_END)
            && (r == [arg] <==> rest == [arg[1..]])
  {
    var r := [[arg[0]] + rest[0]] + rest[1..];
    assert r[1..] == rest[1..];
    assert Terminated(r, ARG_END) == [arg[0]] + Terminated(rest, ARG_END);
    assert arg == [arg[0]] + arg[1..];
    if r == [arg] {
      assert rest == [rest[0]] && arg[1..] == rest[0];
    }
  }

  lemma FreeCut(arg: string)
    requires arg != "" && arg[0] != ARG_END
    ensures Free(arg, ARG_END) <==> Free(arg[1..], ARG_END)
  {
    if Free(arg[1..], ARG_END) {
      forall i | 0 <= i < |arg| ensures arg[i] != ARG_END {
        if i > 0 {
          assert arg[i] == arg[1..][i - 1];
        }
      }
    }
  }

  lemma {:induction false} SplitArgsAreTheArgs(args: seq<string>)
    ensures Terminated(SplitArgs(args), ARG_END) == Terminated(args, ARG_END)
    ensures AllFree(SplitArgs(args), ARG_END)
    ensures SplitArgs(args) == args <==> AllFree(args, ARG_END)
  {
    if args != [] {
      PiecesAreTheArg(args[0]);
      SplitArgsAreTheArgs(args[1..]);
      TerminatedJoined(Pieces(args[0]), SplitArgs(args[1..]), ARG_END);
      assert args == [args[0]] + args[1..];
      if AllFree(args, ARG_END) {
        assert forall i :: 0 <= i < |args[1..]| ==> args[1..][i] == args[i + 1];
      }
    }
  }

  /** Without the restriction it does not: an argument list in which a separator occurs
      is confused with the list that is cut there, and only such a list is. */
  lemma SeparatorsCollide(c: Config)
    ensures var cut := c.(args := SplitArgs(c.args));
            && Payload(cut) == Payload(c)
            && (SameSettings(c, cut) <==> AllFree(c.args, ARG_END))
  {
    var cut := c.(args := SplitArgs(c.args));
    SplitArgsAreTheArgs(c.args);
    assert LaunchValues(cut) == LaunchValues(c) && PlacementValues(cut) == PlacementValues(c);
    assert ContentValues(cut) == ContentValues(c);
  }
}
