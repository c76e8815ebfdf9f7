/** Dependency ordering of applications before they are started
    (`order_specs_for_start` in src/commands/import.rs). */
module StartOrder {
  import opened Prelude
  import opened Text

  /** The part of an application spec the ordering looks at. */
  datatype App = App(startOrder: int, name: Option<string>, dependsOn: seq<string>)

  // ---------------------------------------------------------------------
  // The resolved dependency graph
  // ---------------------------------------------------------------------

  /** The index a dependency name resolves to: the last app carrying it. */
  function Resolve(apps: seq<App>, name: string): (r: Option<nat>)
    ensures r.Some? ==> r.value < |apps| && apps[r.value].name == Some(name)
    ensures r.Some? ==> forall i :: r.value < i < |apps| ==> apps[i].name != Some(name)
    ensures r.None? ==> forall i :: 0 <= i < |apps| ==> apps[i].name != Some(name)
  {
    if apps == [] then None
    else
      var last := |apps| - 1;
      if apps[last].name == Some(name) then Some(last) else Resolve(apps[..last], name)
  }

  /** The apps a list of dependency names resolves to; unknown names are ignored. */
  function Targets(apps: seq<App>, deps: seq<string>): (r: set<nat>)
    ensures forall i :: i in r ==> i < |apps|
  {
    if deps == [] then {}
    else
      var front := Targets(apps, deps[..|deps| - 1]);
      match Resolve(apps, deps[|deps| - 1])
      case Some(i) => front + {i}
      case None => front
  }

  /** The apps app `j` directly depends on. */
  function Deps(apps: seq<App>, j: nat): (r: set<nat>)
    ensures forall i :: i in r ==> i < |apps|
  {
    if j < |apps| then Targets(apps, apps[j].dependsOn) else {}
  }

  /** A walk along dependencies: every app is followed by one it depends on. */
  ghost predicate Walk(apps: seq<App>, w: seq<nat>) {
    && |w| > 0
    && (forall k :: 0 <= k < |w| ==> w[k] < |apps|)
    && (forall k :: 0 < k < |w| ==> w[k] in Deps(apps, w[k - 1]))
  }

  /** A closed walk: a dependency cycle (an app depending on itself included). */
  ghost predicate Cycle(apps: seq<App>, w: seq<nat>) {
    Walk(apps, w) && |w| > 1 && w[0] == w[|w| - 1]
  }

  ghost predicate HasCycle(apps: seq<App>) {
    exists w :: Cycle(apps, w)
  }

  /** App `j` is on a cycle or transitively depends on an app that is. */
  ghost predicate Blocked(apps: seq<App>, j: nat) {
    exists w, c :: Walk(apps, w) && w[0] == j && Cycle(apps, c) && w[|w| - 1] == c[0]
  }

  // ---------------------------------------------------------------------
  // The priority among ready apps: (start_order, name, index)
  // ---------------------------------------------------------------------

  predicate NameLt(a: Option<string>, b: Option<string>) {
    b.Some? && (a.None? || StrLt(a.value, b.value))
  }

  predicate KeyLt(apps: seq<App>, i: nat, j: nat)
    requires i < |apps| && j < |apps|
  {
    || apps[i].startOrder < apps[j].startOrder
    || (apps[i].startOrder == apps[j].startOrder
        && (NameLt(apps[i].name, apps[j].name) || (apps[i].name == apps[j].name && i < j)))
  }

  lemma KeyLtStrictTotal(apps: seq<App>, i: nat, j: nat)
    requires i < |apps| && j < |apps|
    ensures !(KeyLt(apps, i, j) && KeyLt(apps, j, i))
    ensures i != j ==> KeyLt(apps, i, j) || KeyLt(apps, j, i)
  {
    var a, b := apps[i].name, apps[j].name;
    if a.Some? && b.Some? {
      StrLtTotal(a.value, b.value);
      StrLtIrreflexive(a.value);
      if StrLt(a.value, b.value) && StrLt(b.value, a.value) {
        StrLtTransitive(a.value, b.value, a.value);
      }
    }
  }

  lemma KeyLtTransitive(apps: seq<App>, i: nat, j: nat, k: nat)
    requires i < |apps| && j < |apps| && k < |apps|
    requires KeyLt(apps, i, j) && KeyLt(apps, j, k)
    ensures KeyLt(apps, i, k)
  {
    var a, b, c := apps[i].name, apps[j].name, apps[k].name;
    if a.Some? && b.Some? && c.Some? && StrLt(a.value, b.value) && StrLt(b.value, c.value) {
      StrLtTransitive(a.value, b.value, c.value);
    }
  }

  ghost predicate Within(apps: seq<App>, s: set<nat>) {
    forall i :: i in s ==> i < |apps|
  }

  ghost predicate IsLeast(apps: seq<App>, s: set<nat>, c: nat)
    requires Within(apps, s)
  {
    c in s && forall d :: d in s && d != c ==> KeyLt(apps, c, d)
  }

  lemma {:induction false} LeastExists(apps: seq<App>, s: set<nat>)
    requires Within(apps, s) && s != {}
    ensures exists c :: IsLeast(apps, s, c)
    decreases |s|
  {
    var d :| d in s;
    var rest := s - {d};
    if rest == {} {
      assert s == {d};
      assert IsLeast(apps, s, d);
    } else {
      LeastExists(apps, rest);
      var c :| IsLeast(apps, rest, c);
      KeyLtStrictTotal(apps, c, d);
      if KeyLt(apps, c, d) {
        assert IsLeast(apps, s, c);
      } else {
        forall e | e in s && e != d ensures KeyLt(apps, d, e) {
          if e != c {
            KeyLtTransitive(apps, d, c, e);
          }
        }
        assert IsLeast(apps, s, d);
      }
    }
  }

  lemma LeastUnique(apps: seq<App>, s: set<nat>, c: nat, d: nat)
    requires Within(apps, s) && IsLeast(apps, s, c) && IsLeast(apps, s, d)
    ensures c == d
  {
    KeyLtStrictTotal(apps, c, d);
  }

  ghost function Least(apps: seq<App>, s: set<nat>): (c: nat)
    requires Within(apps, s) && s != {}
    ensures IsLeast(apps, s, c)
  {
    LeastExists(apps, s);
    var c :| IsLeast(apps, s, c);
    c
  }

  // ---------------------------------------------------------------------
  // The order, as a function of the set of apps still to be placed
  // ---------------------------------------------------------------------

  /** Apps none of whose dependencies is still to be placed. */
  ghost function Ready(apps: seq<App>, remaining: set<nat>): set<nat> {
    set j | j in remaining && Deps(apps, j) !! remaining
  }

  ghost function Sorted(apps: seq<App>, s: set<nat>): (r: seq<nat>)
    requires Within(apps, s)
    ensures |r| == |s|
    ensures forall k :: 0 <= k < |r| ==> r[k] in s
  {
    if s == {} then []
    else
      var c := Least(apps, s);
      [c] + Sorted(apps, s - {c})
  }

  lemma {:induction false} SortedIsPermutation(apps: seq<App>, s: set<nat>)
    requires Within(apps, s)
    ensures multiset(Sorted(apps, s)) == multiset(s)
    decreases |s|
  {
    if s != {} {
      var c := Least(apps, s);
      SortedIsPermutation(apps, s - {c});
      assert multiset(s) == multiset{c} + multiset(s - {c});
    }
  }

  lemma {:induction false} SortedAscends(apps: seq<App>, s: set<nat>)
    requires Within(apps, s)
    ensures forall i, j :: 0 <= i < j < |Sorted(apps, s)| ==> KeyLt(apps, Sorted(apps, s)[i], Sorted(apps, s)[j])
    decreases |s|
  {
    if s != {} {
      var c := Least(apps, s);
      SortedAscends(apps, s - {c});
    }
  }

  /** Repeatedly places the least ready app; once none is ready, the rest by key. */
  ghost function Order(apps: seq<App>, remaining: set<nat>): (r: seq<nat>)
    requires Within(apps, remaining)
    ensures |r| == |remaining|
    ensures forall k :: 0 <= k < |r| ==> r[k] in remaining
    decreases |remaining|
  {
    var ready := Ready(apps, remaining);
    if ready == {} then Sorted(apps, remaining)
    else
      var c := Least(apps, ready);
      [c] + Order(apps, remaining - {c})
  }

  lemma OrderStep(apps: seq<App>, placed: seq<nat>, remaining: set<nat>)
    requires Within(apps, remaining) && Ready(apps, remaining) != {}
    ensures var c := Least(apps, Ready(apps, remaining));
            placed + Order(apps, remaining) == (placed + [c]) + Order(apps, remaining - {c})
  {
  }

  /** The apps left to the cycle fallback. */
  ghost function Leftover(apps: seq<App>, remaining: set<nat>): (r: set<nat>)
    requires Within(apps, remaining)
    ensures r <= remaining && Ready(apps, r) == {}
    decreases |remaining|
  {
    var ready := Ready(apps, remaining);
    if ready == {} then remaining
    else Leftover(apps, remaining - {Least(apps, ready)})
  }

  function Below(n: nat): (s: set<nat>)
    ensures forall i: nat :: i in s <==> i < n
  {
    if n == 0 then {} else Below(n - 1) + {n - 1}
  }

  /** All apps, in the order they are started. */
  ghost function StartSequence(apps: seq<App>): (r: seq<nat>)
    ensures forall k :: 0 <= k < |r| ==> r[k] < |apps|
  {
    Order(apps, Below(|apps|))
  }

  function AppsAt(apps: seq<App>, order: seq<nat>): (r: seq<App>)
    requires forall k :: 0 <= k < |order| ==> order[k] < |apps|
    ensures |r| == |order|
    ensures forall k :: 0 <= k < |order| ==> r[k] == apps[order[k]]
  {
    if order == [] then []
    else AppsAt(apps, order[..|order| - 1]) + [apps[order[|order| - 1]]]
  }

  // ---------------------------------------------------------------------
  // Pending-dependency counters (`indegree`)
  // ---------------------------------------------------------------------

  /** How many entries of `deps` resolve to `i`. */
  ghost function Occurrences(apps: seq<App>, deps: seq<string>, i: nat): nat {
    if deps == [] then 0
    else Occurrences(apps, deps[..|deps| - 1], i)
         + if Resolve(apps, deps[|deps| - 1]) == Some(i) then 1 else 0
  }

  /** How many entries of `deps` resolve to an app still to be placed. */
  ghost function Unmet(apps: seq<App>, deps: seq<string>, remaining: set<nat>): nat {
    if deps == [] then 0
    else
      var r := Resolve(apps, deps[|deps| - 1]);
      Unmet(apps, deps[..|deps| - 1], remaining) + if r.Some? && r.value in remaining then 1 else 0
  }

  lemma {:induction false} UnmetAfterPlacing(apps: seq<App>, deps: seq<string>, remaining: set<nat>, c: nat)
    requires c in remaining
    ensures Unmet(apps, deps, remaining) == Unmet(apps, deps, remaining - {c}) + Occurrences(apps, deps, c)
  {
    if deps != [] {
      UnmetAfterPlacing(apps, deps[..|deps| - 1], remaining, c);
    }
  }

  lemma {:induction false} UnmetZero(apps: seq<App>, deps: seq<string>, remaining: set<nat>)
    ensures Unmet(apps, deps, remaining) == 0 <==> Targets(apps, deps) !! remaining
  {
    if deps != [] {
      UnmetZero(apps, deps[..|deps| - 1], remaining);
    }
  }

  // ---------------------------------------------------------------------
  // The algorithm
  // ---------------------------------------------------------------------

  method LeastOf(apps: seq<App>, s: set<nat>) returns (c: nat)
    requires Within(apps, s) && s != {}
    ensures c == Least(apps, s)
  {
    c :| c in s;
    var rest := s - {c};
    while rest != {}
      invariant rest <= s && c in s
      invariant forall d :: d in s && d !in rest && d != c ==> KeyLt(apps, c, d)
      decreases |rest|
    {
      var d :| d in rest;
      KeyLtStrictTotal(apps, c, d);
      if KeyLt(apps, d, c) {
        forall e | e in s && e !in rest && e != c ensures KeyLt(apps, d, e) {
          KeyLtTransitive(apps, d, c, e);
        }
        c := d;
      }
      rest := rest - {d};
    }
    LeastUnique(apps, s, c, Least(apps, s));
  }

  method SortByKey(apps: seq<App>, s: set<nat>) returns (r: seq<nat>)
    requires Within(apps, s)
    ensures r == Sorted(apps, s)
    ensures multiset(r) == multiset(s) && forall k :: 0 <= k < |r| ==> r[k] < |apps|
    ensures forall i, j :: 0 <= i < j < |r| ==> KeyLt(apps, r[i], r[j])
  {
    r := SelectInOrder(apps, s);
    SortedIsPermutation(apps, s);
    SortedAscends(apps, s);
  }

  method SelectInOrder(apps: seq<App>, s: set<nat>) returns (r: seq<nat>)
    requires Within(apps, s)
    ensures r == Sorted(apps, s)
  {
    r := [];
    var rest := s;
    while rest != {}
      invariant rest <= s
      invariant r + Sorted(apps, rest) == Sorted(apps, s)
      decreases |rest|
    {
      var c := LeastOf(apps, rest);
      r := r + [c];
      rest := rest - {c};
    }
  }

  method NameIndex(apps: seq<App>) returns (byName: map<string, nat>)
    ensures forall name :: name in byName <==> Resolve(apps, name).Some?
    ensures forall name :: name in byName ==> Resolve(apps, name) == Some(byName[name])
  {
    byName := map[];
    for idx := 0 to |apps|
      invariant forall name :: name in byName <==> Resolve(apps[..idx], name).Some?
      invariant forall name :: name in byName ==> Resolve(apps[..idx], name) == Some(byName[name])
    {
      assert apps[..idx + 1][..idx] == apps[..idx];
      if apps[idx].name.Some? {
        byName := byName[apps[idx].name.value := idx];
      }
    }
    assert apps[..|apps|] == apps;
  }

  /** `edges[i]` lists app `j` once for every entry of `deps` resolving to `i`. */
  ghost predicate EdgesInto(apps: seq<App>, edges: seq<seq<nat>>, j: nat, deps: seq<string>)
    requires |edges| == |apps|
  {
    forall i :: 0 <= i < |apps| ==> multiset(edges[i])[j] == Occurrences(apps, deps, i)
  }

  ghost predicate InRange(apps: seq<App>, edges: seq<seq<nat>>) {
    |edges| == |apps| && forall i, k :: 0 <= i < |edges| && 0 <= k < |edges[i]| ==> edges[i][k] < |apps|
  }

  lemma PushEdge(edges: seq<seq<nat>>, dep: nat, idx: nat)
    requires dep < |edges|
    ensures forall i, j :: 0 <= i < |edges| ==>
                             multiset(edges[dep := edges[dep] + [idx]][i])[j] ==
                             multiset(edges[i])[j] + if i == dep && j == idx then 1 else 0
  {
  }

  method AddEdgesInto(apps: seq<App>, byName: map<string, nat>, idx: nat, before: seq<seq<nat>>)
    returns (indegree: nat, edges: seq<seq<nat>>)
    requires forall name :: name in byName <==> Resolve(apps, name).Some?
    requires forall name :: name in byName ==> Resolve(apps, name) == Some(byName[name])
    requires idx < |apps| && InRange(apps, before)
    requires forall i :: 0 <= i < |apps| ==> multiset(before[i])[idx] == 0
    ensures indegree == Unmet(apps, apps[idx].dependsOn, Below(|apps|))
    ensures InRange(apps, edges) && EdgesInto(apps, edges, idx, apps[idx].dependsOn)
    ensures forall i, j :: 0 <= i < |apps| && j != idx ==> multiset(edges[i])[j] == multiset(before[i])[j]
  {
    var deps := apps[idx].dependsOn;
    indegree, edges := 0, before;
    for k := 0 to |deps|
      invariant indegree == Unmet(apps, deps[..k], Below(|apps|))
      invariant InRange(apps, edges) && EdgesInto(apps, edges, idx, deps[..k])
      invariant forall i, j :: 0 <= i < |apps| && j != idx ==> multiset(edges[i])[j] == multiset(before[i])[j]
    {
      assert deps[..k + 1][..k] == deps[..k];
      if deps[k] in byName {
        var dep := byName[deps[k]];
        PushEdge(edges, dep, idx);
        edges := edges[dep := edges[dep] + [idx]];
        indegree := indegree + 1;
      }
    }
    assert deps[..|deps|] == deps;
  }

  method BuildEdges(apps: seq<App>) returns (indegree: seq<nat>, edges: seq<seq<nat>>)
    ensures |indegree| == |apps| && InRange(apps, edges)
    ensures forall j :: 0 <= j < |apps| ==> indegree[j] == Unmet(apps, apps[j].dependsOn, Below(|apps|))
    ensures forall j :: 0 <= j < |apps| ==> EdgesInto(apps, edges, j, apps[j].dependsOn)
  {
    var byName := NameIndex(apps);
    indegree, edges := [], seq(|apps|, _ => []);
    for idx := 0 to |apps|
      invariant |indegree| == idx && InRange(apps, edges)
      invariant forall j :: 0 <= j < idx ==> indegree[j] == Unmet(apps, apps[j].dependsOn, Below(|apps|))
      invariant forall j :: 0 <= j < idx ==> EdgesInto(apps, edges, j, apps[j].dependsOn)
      invariant forall i, j :: 0 <= i < |apps| && idx <= j ==> multiset(edges[i])[j] == 0
    {
      ghost var before := edges;
      var degree;
      degree, edges := AddEdgesInto(apps, byName, idx, edges);
      forall j | 0 <= j < idx ensures EdgesInto(apps, edges, j, apps[j].dependsOn) {
        assert EdgesInto(apps, before, j, apps[j].dependsOn);
      }
      indegree := indegree + [degree];
    }
  }

  /** Decrements the counters of the apps depending on `current`. */
  method Release(apps: seq<App>, edges: seq<nat>, before: seq<nat>) returns (indegree: seq<nat>)
    requires |before| == |apps|
    requires forall k :: 0 <= k < |edges| ==> edges[k] < |apps|
    ensures |indegree| == |apps|
    ensures forall j :: 0 <= j < |apps| && before[j] >= multiset(edges)[j] ==>
                          indegree[j] == before[j] - multiset(edges)[j]
  {
    indegree := before;
    for k := 0 to |edges|
      invariant |indegree| == |apps|
      invariant forall j :: 0 <= j < |apps| && before[j] >= multiset(edges[..k])[j] ==>
                              indegree[j] == before[j] - multiset(edges[..k])[j]
    {
      assert edges[..k + 1] == edges[..k] + [edges[k]];
      var next := edges[k];
      indegree := indegree[next := if indegree[next] == 0 then 0 else indegree[next] - 1];
    }
    assert edges[..|edges|] == edges;
  }

  /** The counters agree with the apps still to be placed. */
  ghost predicate CountersFor(apps: seq<App>, indegree: seq<nat>, remaining: set<nat>) {
    |indegree| == |apps| &&
    forall j :: j in remaining && j < |apps| ==> indegree[j] == Unmet(apps, apps[j].dependsOn, remaining)
  }

  method ReadyOf(apps: seq<App>, indegree: seq<nat>, remaining: set<nat>) returns (ready: set<nat>)
    requires Within(apps, remaining) && CountersFor(apps, indegree, remaining)
    ensures ready == Ready(apps, remaining)
  {
    ready := set j | j in remaining && indegree[j] == 0;
    forall j | j in remaining ensures j in ready <==> j in Ready(apps, remaining) {
      UnmetZero(apps, apps[j].dependsOn, remaining);
    }
  }

  method Place(apps: seq<App>, edges: seq<seq<nat>>, before: seq<nat>, remaining: set<nat>, current: nat)
    returns (indegree: seq<nat>)
    requires InRange(apps, edges) && (forall j :: 0 <= j < |apps| ==> EdgesInto(apps, edges, j, apps[j].dependsOn))
    requires current in remaining && current < |apps| && CountersFor(apps, before, remaining)
    ensures CountersFor(apps, indegree, remaining - {current})
  {
    indegree := Release(apps, edges[current], before);
    forall j | j in remaining && j < |apps|
      ensures indegree[j] == Unmet(apps, apps[j].dependsOn, remaining - {current})
    {
      UnmetAfterPlacing(apps, apps[j].dependsOn, remaining, current);
      assert EdgesInto(apps, edges, j, apps[j].dependsOn);
    }
  }

  method OrderSpecsForStart(apps: seq<App>) returns (ordered: seq<App>)
    ensures ordered == AppsAt(apps, StartSequence(apps))
  {
    var indegree, edges := BuildEdges(apps);
    var remaining := Below(|apps|);
    var orderedIndices: seq<nat> := [];
    while remaining != {}
      invariant Within(apps, remaining)
      invariant CountersFor(apps, indegree, remaining)
      invariant orderedIndices + Order(apps, remaining) == StartSequence(apps)
      decreases |remaining|
    {
      var ready := ReadyOf(apps, indegree, remaining);
      if ready == {} {
        var leftovers := SortByKey(apps, remaining);
        orderedIndices := orderedIndices + leftovers;
        remaining := {};
        break;
      }
      var current := LeastOf(apps, ready);
      OrderStep(apps, orderedIndices, remaining);
      indegree := Place(apps, edges, indegree, remaining, current);
      remaining := remaining - {current};
      orderedIndices := orderedIndices + [current];
    }
    assert orderedIndices == StartSequence(apps);
    ordered := AppsAt(apps, orderedIndices);
  }
}
