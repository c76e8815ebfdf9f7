/** What the start order promises: a permutation, dependencies first, fallback
    exactly on cycles, least among all topological orders, and canonical. */
module StartOrderTheorems {
  import opened Prelude
  import opened Text
  import opened StartOrder

  // ---------------------------------------------------------------------
  // Permutation
  // ---------------------------------------------------------------------

  lemma {:induction false} OrderIsPermutation(apps: seq<App>, remaining: set<nat>)
    requires Within(apps, remaining)
    ensures multiset(Order(apps, remaining)) == multiset(remaining)
    decreases |remaining|
  {
    if Ready(apps, remaining) == {} {
      SortedIsPermutation(apps, remaining);
    } else {
      var c := Least(apps, Ready(apps, remaining));
      OrderIsPermutation(apps, remaining - {c});
      assert multiset(remaining) == multiset{c} + multiset(remaining - {c});
    }
  }

  lemma {:induction false} AppsAtConcat(apps: seq<App>, a: seq<nat>, b: seq<nat>)
    requires forall k :: 0 <= k < |a| ==> a[k] < |apps|
    requires forall k :: 0 <= k < |b| ==> b[k] < |apps|
    ensures AppsAt(apps, a + b) == AppsAt(apps, a) + AppsAt(apps, b)
  {
  }

  lemma MultisetWithout<T>(a: seq<T>, x: T, b: seq<T>)
    ensures multiset(a + [x] + b) == multiset(a + b) + multiset{x}
  {
  }

  lemma AppsAtWithout(apps: seq<App>, a: seq<nat>, i: nat, b: seq<nat>)
    requires i < |apps|
    requires forall k :: 0 <= k < |a| ==> a[k] < |apps|
    requires forall k :: 0 <= k < |b| ==> b[k] < |apps|
    ensures multiset(AppsAt(apps, a + [i] + b)) == multiset(AppsAt(apps, a + b)) + multiset{apps[i]}
  {
    AppsAtConcat(apps, a, b);
    AppsAtConcat(apps, a, [i]);
    AppsAtConcat(apps, a + [i], b);
    MultisetWithout(AppsAt(apps, a), apps[i], AppsAt(apps, b));
  }

  lemma BelowWithout(order: seq<nat>, last: nat, bound: nat) returns (a: seq<nat>, b: seq<nat>)
    requires multiset(order) == multiset(Below(last + 1))
    requires forall k :: 0 <= k < |order| ==> order[k] < bound
    ensures order == a + [last] + b && multiset(a + b) == multiset(Below(last))
    ensures forall k :: 0 <= k < |a| ==> a[k] < bound
    ensures forall k :: 0 <= k < |b| ==> b[k] < bound
  {
    var k := PositionOf(order, Below(last + 1), last);
    a, b := order[..k], order[k + 1..];
    assert order == a + [last] + b;
    MultisetWithout(a, last, b);
    assert multiset(Below(last + 1)) == multiset(Below(last)) + multiset{last};
    assert multiset(a + b) == multiset(order) - multiset{last};
    assert multiset(Below(last)) == multiset(order) - multiset{last};
  }

  lemma PrefixMultiset<T>(s: seq<T>, n: nat)
    requires n < |s|
    ensures multiset(s[..n + 1]) == multiset(s[..n]) + multiset{s[n]}
  {
    assert s[..n + 1] == s[..n] + [s[n]];
  }

  lemma PositionOf(t: seq<nat>, s: set<nat>, i: nat) returns (m: nat)
    requires multiset(t) == multiset(s) && i in s
    ensures m < |t| && t[m] == i
  {
    assert i in multiset(t);
    m :| m < |t| && t[m] == i;
  }

  lemma PermutedStep(apps: seq<App>, a: seq<nat>, i: nat, b: seq<nat>)
    requires i < |apps|
    requires forall k :: 0 <= k < |a| ==> a[k] < |apps|
    requires forall k :: 0 <= k < |b| ==> b[k] < |apps|
    requires multiset(AppsAt(apps, a + b)) == multiset(apps[..i])
    ensures multiset(AppsAt(apps, a + [i] + b)) == multiset(apps[..i + 1])
  {
    AppsAtWithout(apps, a, i, b);
    PrefixMultiset(apps, i);
  }

  /** Reading the apps at every index once, in any order, permutes them. */
  lemma {:induction false} PermutedAppsAt(apps: seq<App>, order: seq<nat>, n: nat)
    requires n <= |apps| && multiset(order) == multiset(Below(n))
    requires forall k :: 0 <= k < |order| ==> order[k] < |apps|
    ensures multiset(AppsAt(apps, order)) == multiset(apps[..n])
    decreases n
  {
    if n == 0 {
      assert |order| == |multiset(order)| == 0;
    } else {
      var a, b := BelowWithout(order, n - 1, |apps|);
      PermutedAppsAt(apps, a + b, n - 1);
      PermutedStep(apps, a, n - 1, b);
    }
  }

  /** Every app is started exactly once, for every dependency graph. */
  lemma StartOrderIsPermutation(apps: seq<App>)
    ensures multiset(StartSequence(apps)) == multiset(Below(|apps|))
    ensures multiset(AppsAt(apps, StartSequence(apps))) == multiset(apps)
  {
    OrderIsPermutation(apps, Below(|apps|));
    PermutedAppsAt(apps, StartSequence(apps), |apps|);
    assert apps[..|apps|] == apps;
  }

  // ---------------------------------------------------------------------
  // The fallback and cycles
  // ---------------------------------------------------------------------

  /** A set every member of which depends on a member is never entered. */
  lemma {:induction false} EntangledStays(apps: seq<App>, remaining: set<nat>, b: set<nat>)
    requires Within(apps, remaining) && b <= remaining
    requires forall j :: j in b ==> Deps(apps, j) * b != {}
    ensures b <= Leftover(apps, remaining)
    decreases |remaining|
  {
    if Ready(apps, remaining) != {} {
      var c := Least(apps, Ready(apps, remaining));
      assert c !in b;
      EntangledStays(apps, remaining - {c}, b);
    }
  }

  lemma BlockedIsLeftover(apps: seq<App>, j: nat)
    requires Blocked(apps, j)
    ensures j in Leftover(apps, Below(|apps|))
  {
    var w, c :| Walk(apps, w) && w[0] == j && Cycle(apps, c) && w[|w| - 1] == c[0];
    var lasso := w[..|w| - 1] + c;
    assert lasso[0] == j;
    LassoStays(apps, lasso, |w| - 1);
  }

  /** A walk whose last app occurs earlier in it is never placed. */
  lemma LassoStays(apps: seq<App>, w: seq<nat>, a: nat)
    requires Walk(apps, w) && a < |w| - 1 && w[a] == w[|w| - 1]
    ensures w[0] in Leftover(apps, Below(|apps|))
  {
    var b := set i | i in w;
    WalkInRange(apps, w);
    forall i | i in b ensures Deps(apps, i) * b != {} {
      var next := LassoNext(apps, w, a, i);
      SharesMember(Deps(apps, i), b, next);
    }
    EntangledStays(apps, Below(|apps|), b);
    assert w[0] in b;
  }

  lemma WalkInRange(apps: seq<App>, w: seq<nat>)
    requires Walk(apps, w)
    ensures (set i | i in w) <= Below(|apps|)
  {
  }

  lemma SharesMember(a: set<nat>, b: set<nat>, x: nat)
    requires x in a && x in b
    ensures a * b != {}
  {
    assert x in a * b;
  }

  lemma LassoNext(apps: seq<App>, w: seq<nat>, a: nat, i: nat) returns (next: nat)
    requires Walk(apps, w) && a < |w| - 1 && w[a] == w[|w| - 1]
    requires i in w
    ensures next in w && next in Deps(apps, i)
  {
    var k :| 0 <= k < |w| && w[k] == i;
    next := if k < |w| - 1 then w[k + 1] else w[a + 1];
  }

  /** Inside a set without ready members, dependencies can be followed forever. */
  lemma {:induction false} WalkInside(apps: seq<App>, stuck: set<nat>, j: nat, steps: nat) returns (w: seq<nat>)
    requires Within(apps, stuck) && Ready(apps, stuck) == {} && j in stuck
    ensures Walk(apps, w) && w[0] == j && |w| == steps + 1
    ensures forall k :: 0 <= k < |w| ==> w[k] in stuck
  {
    if steps == 0 {
      w := [j];
    } else {
      var front := WalkInside(apps, stuck, j, steps - 1);
      var last := front[|front| - 1];
      assert last !in Ready(apps, stuck);
      var next :| next in Deps(apps, last) && next in stuck;
      w := front + [next];
    }
  }

  lemma {:induction false} Pigeonhole(w: seq<nat>, s: set<nat>) returns (a: nat, b: nat)
    requires |w| > |s| && forall k :: 0 <= k < |w| ==> w[k] in s
    ensures a < b < |w| && w[a] == w[b]
    decreases |s|
  {
    var last := |w| - 1;
    if k :| 0 <= k < last && w[k] == w[last] {
      a, b := k, last;
    } else {
      a, b := Pigeonhole(w[..last], s - {w[last]});
    }
  }

  lemma RepeatIsBlocked(apps: seq<App>, w: seq<nat>, a: nat, b: nat)
    requires Walk(apps, w) && a < b < |w| && w[a] == w[b]
    ensures Blocked(apps, w[0])
  {
    var lead, loop := w[..a + 1], w[a..b + 1];
    assert Walk(apps, lead) && lead[|lead| - 1] == loop[0];
    assert Cycle(apps, loop) by {
      forall k | 0 < k < |loop| ensures loop[k] in Deps(apps, loop[k - 1]) {
        assert w[a + k] in Deps(apps, w[a + k - 1]);
      }
    }
  }

  lemma LeftoverIsBlocked(apps: seq<App>, j: nat)
    requires j in Leftover(apps, Below(|apps|))
    ensures Blocked(apps, j)
  {
    var stuck := Leftover(apps, Below(|apps|));
    var w := WalkInside(apps, stuck, j, |stuck|);
    var a, b := Pigeonhole(w, stuck);
    RepeatIsBlocked(apps, w, a, b);
  }

  /** The fallback places exactly the apps on, or transitively depending on, a cycle. */
  lemma FallbackIsBlockedApps(apps: seq<App>, j: nat)
    ensures j in Leftover(apps, Below(|apps|)) <==> Blocked(apps, j)
  {
    if Blocked(apps, j) {
      BlockedIsLeftover(apps, j);
    }
    if j in Leftover(apps, Below(|apps|)) {
      LeftoverIsBlocked(apps, j);
    }
  }

  /** The fallback is taken if and only if the resolved graph has a cycle. */
  lemma FallbackIffCycle(apps: seq<App>)
    ensures Leftover(apps, Below(|apps|)) != {} <==> HasCycle(apps)
  {
    if c :| Cycle(apps, c) {
      assert Walk(apps, [c[0]]);
      assert Blocked(apps, c[0]) by { assert [c[0]][0] == c[0]; }
      BlockedIsLeftover(apps, c[0]);
    }
    if j :| j in Leftover(apps, Below(|apps|)) {
      LeftoverIsBlocked(apps, j);
    }
  }

  // ---------------------------------------------------------------------
  // Dependencies before dependents
  // ---------------------------------------------------------------------

  /** The apps placed before the fallback, in order. */
  ghost function Placed(apps: seq<App>, remaining: set<nat>): (r: seq<nat>)
    requires Within(apps, remaining)
    ensures forall k :: 0 <= k < |r| ==> r[k] in remaining
    decreases |remaining|
  {
    if Ready(apps, remaining) == {} then []
    else
      var c := Least(apps, Ready(apps, remaining));
      [c] + Placed(apps, remaining - {c})
  }

  lemma PlacedStep(apps: seq<App>, remaining: set<nat>) returns (c: nat)
    requires Within(apps, remaining) && Ready(apps, remaining) != {}
    ensures c in remaining
    ensures Order(apps, remaining) == [c] + Order(apps, remaining - {c})
    ensures Placed(apps, remaining) == [c] + Placed(apps, remaining - {c})
    ensures Leftover(apps, remaining) == Leftover(apps, remaining - {c})
  {
    c := Least(apps, Ready(apps, remaining));
  }

  lemma {:induction false} OrderSplits(apps: seq<App>, remaining: set<nat>)
    requires Within(apps, remaining)
    ensures Order(apps, remaining) == Placed(apps, remaining) + Sorted(apps, Leftover(apps, remaining))
    decreases |remaining|
  {
    if Ready(apps, remaining) == {} {
      assert Placed(apps, remaining) == [];
    } else {
      var c := PlacedStep(apps, remaining);
      var rest := remaining - {c};
      OrderSplits(apps, rest);
      Regroup([c], Order(apps, rest), Placed(apps, rest), Sorted(apps, Leftover(apps, rest)));
    }
  }

  lemma Regroup(a: seq<nat>, o: seq<nat>, p: seq<nat>, q: seq<nat>)
    requires o == p + q
    ensures a + o == (a + p) + q
  {
  }

  /** Dependencies of a placed app that were still to be placed are nowhere later. */
  lemma {:induction false} PlacedHasNoOpenDeps(apps: seq<App>, remaining: set<nat>, k: nat)
    requires Within(apps, remaining) && k < |Placed(apps, remaining)|
    ensures var p := Placed(apps, remaining);
            forall i :: i in Deps(apps, p[k]) && i in remaining ==> i in p[..k]
    decreases |remaining|
  {
    if k > 0 {
      var c := Least(apps, Ready(apps, remaining));
      var p := Placed(apps, remaining);
      PlacedHasNoOpenDeps(apps, remaining - {c}, k - 1);
      assert p[..k] == [c] + Placed(apps, remaining - {c})[..k - 1];
    }
  }

  /** All apps of `remaining`, each once, and nothing before one of its dependencies. */
  ghost predicate Topological(apps: seq<App>, remaining: set<nat>, t: seq<nat>) {
    && multiset(t) == multiset(remaining)
    && forall k, m :: 0 <= k <= m < |t| ==> t[m] !in Deps(apps, t[k])
  }

  /** With or without cycles elsewhere, an app not blocked by one comes after all
      its dependencies. */
  lemma DependenciesComeFirst(apps: seq<App>, k: nat, i: nat)
    requires k < |StartSequence(apps)| && !Blocked(apps, StartSequence(apps)[k])
    requires i in Deps(apps, StartSequence(apps)[k])
    ensures i in StartSequence(apps)[..k]
  {
    UnblockedIsPlaced(apps, k);
    PlacedHasNoOpenDeps(apps, Below(|apps|), k);
  }

  lemma UnblockedIsPlaced(apps: seq<App>, k: nat)
    requires k < |StartSequence(apps)| && !Blocked(apps, StartSequence(apps)[k])
    ensures var p := Placed(apps, Below(|apps|));
            k < |p| && p[k] == StartSequence(apps)[k] && p[..k] == StartSequence(apps)[..k]
  {
    var all := Below(|apps|);
    OrderSplits(apps, all);
    FallbackIsBlockedApps(apps, StartSequence(apps)[k]);
    SplitAt(StartSequence(apps), Placed(apps, all), Sorted(apps, Leftover(apps, all)), k);
  }

  lemma SplitAt(t: seq<nat>, p: seq<nat>, q: seq<nat>, k: nat)
    requires t == p + q && k < |t|
    ensures k < |p| ==> p[k] == t[k] && p[..k] == t[..k]
    ensures k >= |p| ==> t[k] == q[k - |p|]
  {
  }

  lemma PlacedIsOrdered(apps: seq<App>, k: nat, m: nat)
    requires !HasCycle(apps)
    requires k <= m < |StartSequence(apps)|
    ensures StartSequence(apps)[m] !in Deps(apps, StartSequence(apps)[k])
  {
    var order := StartSequence(apps);
    if order[m] in Deps(apps, order[k]) {
      DependenciesComeFirst(apps, k, order[m]);
      var l :| 0 <= l < k && order[l] == order[m];
      Twice(order, l, m);
      OrderIsPermutation(apps, Below(|apps|));
    }
  }

  lemma Twice(t: seq<nat>, l: nat, m: nat)
    requires l < m < |t| && t[l] == t[m]
    ensures multiset(t)[t[m]] >= 2
  {
    assert t == t[..m] + [t[m]] + t[m + 1..];
    assert t[l] in multiset(t[..m]);
  }

  /** In any arrangement, some member of an entangled set precedes a dependency. */
  lemma FirstStuck(apps: seq<App>, t: seq<nat>, stuck: set<nat>) returns (k: nat, m: nat)
    requires Within(apps, stuck) && stuck != {} && Ready(apps, stuck) == {}
    requires multiset(t) == multiset(Below(|apps|))
    ensures k <= m < |t| && t[m] in Deps(apps, t[k])
  {
    var j :| j in stuck;
    var bound := PositionOf(t, Below(|apps|), j);
    k := 0;
    while t[k] !in stuck
      invariant k <= bound && forall l :: 0 <= l < k ==> t[l] !in stuck
      decreases bound - k
    {
      k := k + 1;
    }
    assert t[k] !in Ready(apps, stuck);
    var i :| i in Deps(apps, t[k]) && i in stuck;
    m := PositionOf(t, Below(|apps|), i);
  }

  /** Without a cycle the start order is a topological order; with one there is none. */
  lemma TopologicalIffAcyclic(apps: seq<App>)
    ensures !HasCycle(apps) ==> Topological(apps, Below(|apps|), StartSequence(apps))
    ensures HasCycle(apps) ==> forall t :: !Topological(apps, Below(|apps|), t)
  {
    var all := Below(|apps|);
    FallbackIffCycle(apps);
    if !HasCycle(apps) {
      OrderIsPermutation(apps, all);
      var t := StartSequence(apps);
      forall k, m | 0 <= k <= m < |t| ensures t[m] !in Deps(apps, t[k]) {
        PlacedIsOrdered(apps, k, m);
      }
    } else {
      forall t: seq<nat> | multiset(t) == multiset(all) ensures !Topological(apps, all, t) {
        var k, m := FirstStuck(apps, t, Leftover(apps, all));
      }
    }
  }

  // ---------------------------------------------------------------------
  // Lexicographically least
  // ---------------------------------------------------------------------

  ghost predicate LexLe(apps: seq<App>, r: seq<nat>, t: seq<nat>)
    requires forall k :: 0 <= k < |r| ==> r[k] < |apps|
    requires forall k :: 0 <= k < |t| ==> t[k] < |apps|
  {
    r == t || exists k :: 0 <= k < |r| && k < |t| && r[..k] == t[..k] && KeyLt(apps, r[k], t[k])
  }

  lemma FirstIsReady(apps: seq<App>, remaining: set<nat>, t: seq<nat>)
    requires Topological(apps, remaining, t) && t != []
    ensures t[0] in Ready(apps, remaining)
    ensures Topological(apps, remaining - {t[0]}, t[1..])
  {
    assert t[0] in multiset(t);
    forall i | i in remaining ensures i !in Deps(apps, t[0]) {
      var m := PositionOf(t, remaining, i);
    }
    assert t == [t[0]] + t[1..];
    assert multiset(remaining - {t[0]}) == multiset(remaining) - multiset{t[0]};
  }

  lemma LexLeCons(apps: seq<App>, c: nat, r: seq<nat>, t: seq<nat>)
    requires c < |apps|
    requires forall k :: 0 <= k < |r| ==> r[k] < |apps|
    requires forall k :: 0 <= k < |t| ==> t[k] < |apps|
    requires LexLe(apps, r, t)
    ensures LexLe(apps, [c] + r, [c] + t)
  {
    if r != t {
      var k :| 0 <= k < |r| && k < |t| && r[..k] == t[..k] && KeyLt(apps, r[k], t[k]);
      assert ([c] + r)[..k + 1] == [c] + r[..k] && ([c] + t)[..k + 1] == [c] + t[..k];
      assert KeyLt(apps, ([c] + r)[k + 1], ([c] + t)[k + 1]);
    }
  }

  lemma {:induction false} OrderIsLeast(apps: seq<App>, remaining: set<nat>, t: seq<nat>)
    requires Within(apps, remaining) && Topological(apps, remaining, t)
    requires forall k :: 0 <= k < |t| ==> t[k] < |apps|
    ensures LexLe(apps, Order(apps, remaining), t)
    decreases |t|
  {
    if t == [] {
      assert |multiset(t)| == |multiset(remaining)| == |remaining|;
      assert Order(apps, remaining) == [];
    } else {
      FirstIsReady(apps, remaining, t);
      var c := Least(apps, Ready(apps, remaining));
      assert Order(apps, remaining) == [c] + Order(apps, remaining - {c});
      if c == t[0] {
        assert t == [c] + t[1..];
        OrderIsLeast(apps, remaining - {c}, t[1..]);
        LexLeCons(apps, c, Order(apps, remaining - {c}), t[1..]);
      } else {
        assert Order(apps, remaining)[..0] == t[..0];
      }
    }
  }

  /** Among all topological orders the start order is the least under
      (start_order, name, index); so no choice made by hash iteration shows. */
  lemma StartOrderIsLeastTopological(apps: seq<App>, t: seq<nat>)
    requires Topological(apps, Below(|apps|), t)
    requires forall k :: 0 <= k < |t| ==> t[k] < |apps|
    ensures LexLe(apps, StartSequence(apps), t)
  {
    OrderIsLeast(apps, Below(|apps|), t);
  }

  // ---------------------------------------------------------------------
  // Canonical: independent of the order the apps were listed in
  // ---------------------------------------------------------------------

  ghost predicate DistinctNames(apps: seq<App>) {
    && (forall i :: 0 <= i < |apps| ==> apps[i].name.Some?)
    && (forall i, j :: 0 <= i < |apps| && 0 <= j < |apps| && apps[i].name == apps[j].name ==> i == j)
  }

  ghost function Image(apps: seq<App>, s: set<nat>): set<App>
    requires Within(apps, s)
  {
    set i | i in s :: apps[i]
  }

  lemma {:induction false} TargetsByName(apps: seq<App>, deps: seq<string>, i: nat)
    requires DistinctNames(apps) && i < |apps|
    ensures i in Targets(apps, deps) <==> apps[i].name.value in deps
  {
    if deps != [] {
      TargetsByName(apps, deps[..|deps| - 1], i);
      assert deps == deps[..|deps| - 1] + [deps[|deps| - 1]];
    }
  }

  lemma ReadyByName(apps: seq<App>, s: set<nat>, j: nat)
    requires DistinctNames(apps) && Within(apps, s) && j in s
    ensures j in Ready(apps, s) <==> forall b :: b in Image(apps, s) ==> b.name.value !in apps[j].dependsOn
  {
    forall i | i in s ensures i in Deps(apps, j) <==> apps[i].name.value in apps[j].dependsOn {
      TargetsByName(apps, apps[j].dependsOn, i);
    }
    forall i | i in s ensures apps[i] in Image(apps, s) {
    }
  }

  lemma SameReady(apps: seq<App>, s: set<nat>, apps': seq<App>, s': set<nat>)
    requires DistinctNames(apps) && Within(apps, s) && DistinctNames(apps') && Within(apps', s')
    requires Image(apps, s) == Image(apps', s')
    ensures Image(apps, Ready(apps, s)) <= Image(apps', Ready(apps', s'))
  {
    forall a | a in Image(apps, Ready(apps, s)) ensures a in Image(apps', Ready(apps', s')) {
      var j :| j in Ready(apps, s) && apps[j] == a;
      assert a in Image(apps, s);
      var j' :| j' in s' && apps'[j'] == a;
      ReadyByName(apps, s, j);
      ReadyByName(apps', s', j');
    }
  }

  lemma SameLeast(apps: seq<App>, s: set<nat>, apps': seq<App>, s': set<nat>)
    requires DistinctNames(apps) && Within(apps, s) && DistinctNames(apps') && Within(apps', s')
    requires Image(apps, s) == Image(apps', s') && s != {} && s' != {}
    ensures apps[Least(apps, s)] == apps'[Least(apps', s')]
  {
    var c, c' := Least(apps, s), Least(apps', s');
    assert apps[c] in Image(apps', s') && apps'[c'] in Image(apps, s);
    var d' :| d' in s' && apps'[d'] == apps[c];
    var d :| d in s && apps[d] == apps'[c'];
    if c != d {
      KeyLtStrictTotal(apps, c, d);
      KeyLtStrictTotal(apps', c', d');
    }
  }

  lemma SameWithout(apps: seq<App>, s: set<nat>, c: nat)
    requires DistinctNames(apps) && Within(apps, s) && c in s
    ensures Image(apps, s - {c}) == Image(apps, s) - {apps[c]}
  {
  }

  lemma {:induction false} SameSorted(apps: seq<App>, s: set<nat>, apps': seq<App>, s': set<nat>)
    requires DistinctNames(apps) && Within(apps, s) && DistinctNames(apps') && Within(apps', s')
    requires Image(apps, s) == Image(apps', s')
    ensures AppsAt(apps, Sorted(apps, s)) == AppsAt(apps', Sorted(apps', s'))
    decreases |s|
  {
    EmptyImage(apps, s);
    EmptyImage(apps', s');
    if s != {} {
      var c, c' := Least(apps, s), Least(apps', s');
      SameLeast(apps, s, apps', s');
      SameWithout(apps, s, c);
      SameWithout(apps', s', c');
      SameSorted(apps, s - {c}, apps', s' - {c'});
      AppsAtCons(apps, c, Sorted(apps, s - {c}), Sorted(apps, s));
      AppsAtCons(apps', c', Sorted(apps', s' - {c'}), Sorted(apps', s'));
    }
  }

  lemma EmptyImage(apps: seq<App>, s: set<nat>)
    requires Within(apps, s)
    ensures Image(apps, s) == {} <==> s == {}
  {
    if i :| i in s {
      assert apps[i] in Image(apps, s);
    }
  }

  lemma {:induction false} SameOrder(apps: seq<App>, s: set<nat>, apps': seq<App>, s': set<nat>)
    requires DistinctNames(apps) && Within(apps, s) && DistinctNames(apps') && Within(apps', s')
    requires Image(apps, s) == Image(apps', s')
    ensures AppsAt(apps, Order(apps, s)) == AppsAt(apps', Order(apps', s'))
    decreases |s|
  {
    var r, r' := Ready(apps, s), Ready(apps', s');
    SameReady(apps, s, apps', s');
    SameReady(apps', s', apps, s);
    EmptyImage(apps, r);
    EmptyImage(apps', r');
    if r == {} {
      SameSorted(apps, s, apps', s');
    } else {
      var c, c' := Least(apps, r), Least(apps', r');
      SameLeast(apps, r, apps', r');
      SameWithout(apps, s, c);
      SameWithout(apps', s', c');
      OrderHead(apps, s, c);
      OrderHead(apps', s', c');
      SameOrder(apps, s - {c}, apps', s' - {c'});
    }
  }

  lemma OrderHead(apps: seq<App>, s: set<nat>, c: nat)
    requires Within(apps, s) && Ready(apps, s) != {} && c == Least(apps, Ready(apps, s))
    ensures AppsAt(apps, Order(apps, s)) == [apps[c]] + AppsAt(apps, Order(apps, s - {c}))
  {
    AppsAtCons(apps, c, Order(apps, s - {c}), Order(apps, s));
  }

  lemma AppsAtCons(apps: seq<App>, c: nat, rest: seq<nat>, full: seq<nat>)
    requires c < |apps| && full == [c] + rest
    requires forall k :: 0 <= k < |rest| ==> rest[k] < |apps|
    ensures AppsAt(apps, full) == [apps[c]] + AppsAt(apps, rest)
  {
    AppsAtConcat(apps, [c], rest);
  }

  /** With distinctly named apps the order they were listed in does not matter,
      cycles or not. */
  lemma StartOrderIsCanonical(apps: seq<App>, apps': seq<App>)
    requires DistinctNames(apps) && DistinctNames(apps') && multiset(apps) == multiset(apps')
    ensures AppsAt(apps, StartSequence(apps)) == AppsAt(apps', StartSequence(apps'))
  {
    forall a ensures a in Image(apps, Below(|apps|)) <==> a in Image(apps', Below(|apps'|)) {
      assert a in multiset(apps) <==> a in multiset(apps');
      ImageOfAll(apps, a);
      ImageOfAll(apps', a);
    }
    SameOrder(apps, Below(|apps|), apps', Below(|apps'|));
  }

  lemma ImageOfAll(apps: seq<App>, a: App)
    ensures a in Image(apps, Below(|apps|)) <==> a in apps
  {
    if i :| 0 <= i < |apps| && apps[i] == a {
      assert i in Below(|apps|);
    }
  }

  lemma DistinctNamesPermuted(apps: seq<App>, apps': seq<App>)
    requires DistinctNames(apps) && multiset(apps) == multiset(apps')
    ensures DistinctNames(apps')
  {
    forall i | 0 <= i < |apps'| ensures apps'[i] in apps {
      assert apps'[i] in multiset(apps');
    }
    forall i, j | 0 <= i < j < |apps'| ensures apps'[i].name != apps'[j].name {
      if apps'[i].name == apps'[j].name {
        assert apps'[i] == apps'[j];
        assert apps' == apps'[..j] + [apps'[j]] + apps'[j + 1..];
        assert apps'[i] in multiset(apps'[..j]);
        assert multiset(apps)[apps'[j]] >= 2;
        OnlyOnce(apps, apps'[j]);
        assert false;
      }
    }
  }

  lemma {:induction false} OnlyOnce(apps: seq<App>, a: App)
    requires DistinctNames(apps)
    ensures multiset(apps)[a] <= 1
  {
    if apps != [] {
      var last := |apps| - 1;
      OnlyOnce(apps[..last], a);
      assert apps == apps[..last] + [apps[last]];
      assert apps[last] !in apps[..last];
      assert apps[last] !in multiset(apps[..last]);
    }
  }

  /** Ordering an ordered list changes nothing. */
  lemma StartOrderIsIdempotent(apps: seq<App>)
    requires DistinctNames(apps)
    ensures var ordered := AppsAt(apps, StartSequence(apps));
            AppsAt(ordered, StartSequence(ordered)) == ordered
  {
    var ordered := AppsAt(apps, StartSequence(apps));
    StartOrderIsPermutation(apps);
    DistinctNamesPermuted(apps, ordered);
    StartOrderIsCanonical(apps, ordered);
  }

  // ---------------------------------------------------------------------
  // The order in terms of the apps
  // ---------------------------------------------------------------------

  /** An unnamed app goes before a named one, and names go in dictionary order. */
  ghost predicate NameBefore(a: Option<string>, b: Option<string>) {
    (a.None? && b.Some?) || (a.Some? && b.Some? && Before(a.value, b.value))
  }

  /** App `i` is to go before app `j`: by start order, then name, then place in the list. */
  ghost predicate GoesBefore(apps: seq<App>, i: nat, j: nat)
    requires i < |apps| && j < |apps|
  {
    || apps[i].startOrder < apps[j].startOrder
    || (apps[i].startOrder == apps[j].startOrder && NameBefore(apps[i].name, apps[j].name))
    || (apps[i].startOrder == apps[j].startOrder && apps[i].name == apps[j].name && i < j)
  }

  /** App `j` lists a name that app `i` carries, as the last one to carry it. */
  ghost predicate DependsOn(apps: seq<App>, j: nat, i: nat)
    requires i < |apps| && j < |apps|
  {
    && apps[i].name.Some? && apps[i].name.value in apps[j].dependsOn
    && forall k :: i < k < |apps| ==> apps[k].name != apps[i].name
  }

  lemma KeyLtIff(apps: seq<App>, i: nat, j: nat)
    requires i < |apps| && j < |apps|
    ensures KeyLt(apps, i, j) <==> GoesBefore(apps, i, j)
  {
    if apps[i].name.Some? && apps[j].name.Some? {
      StrLtIff(apps[i].name.value, apps[j].name.value);
    }
  }

  lemma {:induction false} TargetsIff(apps: seq<App>, deps: seq<string>, i: nat)
    requires i < |apps|
    ensures i in Targets(apps, deps) <==>
            && apps[i].name.Some? && apps[i].name.value in deps
            && forall k :: i < k < |apps| ==> apps[k].name != apps[i].name
  {
    if deps != [] {
      var last := |deps| - 1;
      TargetsIff(apps, deps[..last], i);
      assert deps == deps[..last] + [deps[last]];
    }
  }

  lemma DepsIff(apps: seq<App>, j: nat, i: nat)
    requires i < |apps| && j < |apps|
    ensures i in Deps(apps, j) <==> DependsOn(apps, j, i)
  {
    TargetsIff(apps, apps[j].dependsOn, i);
  }

  /** Of two apps placed one after the other the first has the smaller key, unless the
      second had to wait for an app placed in between, or for the first. */
  lemma {:induction false} PlacedByKey(apps: seq<App>, remaining: set<nat>, k: nat, l: nat)
    requires Within(apps, remaining) && k < l < |Placed(apps, remaining)|
    ensures var p := Placed(apps, remaining);
            KeyLt(apps, p[k], p[l]) || exists m :: k <= m < l && p[m] in Deps(apps, p[l])
    decreases |remaining|
  {
    var c := Least(apps, Ready(apps, remaining));
    var p, rest := Placed(apps, remaining), Placed(apps, remaining - {c});
    assert p == [c] + rest;
    if k > 0 {
      PlacedByKey(apps, remaining - {c}, k - 1, l - 1);
      if m :| k - 1 <= m < l - 1 && rest[m] in Deps(apps, rest[l - 1]) {
        assert p[m + 1] in Deps(apps, p[l]);
      }
    } else if p[l] !in Ready(apps, remaining) {
      var i :| i in Deps(apps, p[l]) && i in remaining;
      PlacedHasNoOpenDeps(apps, remaining, l);
      var m :| 0 <= m < |p[..l]| && p[..l][m] == i;
    }
  }

  /** The apps placed in order, none of them in `left`. */
  ghost predicate InOrder(apps: seq<App>, p: seq<nat>, left: set<nat>) {
    && (forall i :: 0 <= i < |p| ==> p[i] < |apps| && p[i] !in left)
    && (forall k, l :: 0 <= k < l < |p| ==> InPlace(apps, p, k, l))
  }

  /** The apps of `left` by key. */
  ghost predicate ByKey(apps: seq<App>, q: seq<nat>, left: set<nat>) {
    && (forall i :: 0 <= i < |q| ==> q[i] < |apps| && q[i] in left)
    && (forall k, l :: 0 <= k < l < |q| ==> KeyLt(apps, q[k], q[l]))
  }

  lemma SequenceParts(apps: seq<App>) returns (p: seq<nat>, q: seq<nat>)
    ensures StartSequence(apps) == p + q
    ensures InOrder(apps, p, Leftover(apps, Below(|apps|))) && ByKey(apps, q, Leftover(apps, Below(|apps|)))
  {
    var all := Below(|apps|);
    p, q := Placed(apps, all), Sorted(apps, Leftover(apps, all));
    OrderSplits(apps, all);
    PlacedInOrder(apps, p);
    SortedAscends(apps, Leftover(apps, all));
  }

  lemma PlacedInOrder(apps: seq<App>, p: seq<nat>)
    requires p == Placed(apps, Below(|apps|))
    ensures InOrder(apps, p, Leftover(apps, Below(|apps|)))
  {
    forall i | 0 <= i < |p| ensures p[i] < |apps| && p[i] !in Leftover(apps, Below(|apps|)) {
      PlacedIsNotLeft(apps, Below(|apps|), i);
    }
    forall k, l | 0 <= k < l < |p| ensures InPlace(apps, p, k, l) {
      PlacedByKey(apps, Below(|apps|), k, l);
    }
  }

  lemma SequenceByKey(apps: seq<App>, t: seq<nat>, p: seq<nat>, q: seq<nat>, left: set<nat>, k: nat, l: nat)
    requires t == p + q && InOrder(apps, p, left) && ByKey(apps, q, left) && k < l < |t|
    ensures forall i :: 0 <= i < |t| ==> t[i] < |apps|
    ensures InPlace(apps, t, k, l) || (t[l] in left && t[k] !in left)
  {
    if l < |p| {
      InPlaceWithin(apps, t, p, k, l);
    } else if k >= |p| {
      assert KeyLt(apps, q[k - |p|], q[l - |p|]);
    }
  }

  /** App `t[k]` has the smaller key, or app `t[l]` had to wait for one from `t[k]` on. */
  ghost predicate InPlace(apps: seq<App>, t: seq<nat>, k: nat, l: nat)
    requires k < l < |t| && forall i :: 0 <= i < |t| ==> t[i] < |apps|
  {
    KeyLt(apps, t[k], t[l]) || exists m :: k <= m < l && t[m] in Deps(apps, t[l])
  }

  lemma InPlaceWithin(apps: seq<App>, t: seq<nat>, p: seq<nat>, k: nat, l: nat)
    requires p <= t && k < l < |p| && forall i :: 0 <= i < |t| ==> t[i] < |apps|
    requires forall i :: 0 <= i < |p| ==> p[i] < |apps|
    requires InPlace(apps, p, k, l)
    ensures InPlace(apps, t, k, l)
  {
    assert t[k] == p[k] && t[l] == p[l];
    if m :| k <= m < l && p[m] in Deps(apps, p[l]) {
      assert t[m] == p[m];
    }
  }

  lemma {:induction false} PlacedIsNotLeft(apps: seq<App>, remaining: set<nat>, k: nat)
    requires Within(apps, remaining) && k < |Placed(apps, remaining)|
    ensures Placed(apps, remaining)[k] !in Leftover(apps, remaining)
    decreases |remaining|
  {
    var c := Least(apps, Ready(apps, remaining));
    if k > 0 {
      PlacedIsNotLeft(apps, remaining - {c}, k - 1);
    }
  }

  /** Why an app stands where it stands: if one that should go before it comes later, that
      one had to wait for an app that stands in between, or for this one; or it is on or
      behind a cycle and this one is not. */
  lemma StartOrderByFields(apps: seq<App>, k: nat, l: nat)
    requires k < l < |StartSequence(apps)|
    ensures var t := StartSequence(apps);
            GoesBefore(apps, t[l], t[k]) ==>
              || (exists m :: k <= m < l && DependsOn(apps, t[l], t[m]))
              || (Blocked(apps, t[l]) && !Blocked(apps, t[k]))
  {
    var t := StartSequence(apps);
    var p, q := SequenceParts(apps);
    SequenceByKey(apps, t, p, q, Leftover(apps, Below(|apps|)), k, l);
    FallbackIsBlockedApps(apps, t[k]);
    FallbackIsBlockedApps(apps, t[l]);
    KeyLtIff(apps, t[l], t[k]);
    KeyLtStrictTotal(apps, t[k], t[l]);
    if m :| k <= m < l && t[m] in Deps(apps, t[l]) {
      DepsIff(apps, t[l], t[m]);
    }
  }

  /** Without dependencies the apps start by start order, then name, then place. */
  lemma IndependentAppsByKey(apps: seq<App>, k: nat, l: nat)
    requires k < l < |StartSequence(apps)| && forall i :: 0 <= i < |apps| ==> apps[i].dependsOn == []
    ensures var t := StartSequence(apps);
            && apps[t[k]].startOrder <= apps[t[l]].startOrder && GoesBefore(apps, t[k], t[l])
            && !GoesBefore(apps, t[l], t[k])
  {
    var t := StartSequence(apps);
    StartOrderByFields(apps, k, l);
    NothingBlocked(apps, t[l]);
    OrderIsPermutation(apps, Below(|apps|));
    if t[k] == t[l] {
      Twice(t, k, l);
    }
    KeyLtStrictTotal(apps, t[k], t[l]);
    KeyLtIff(apps, t[k], t[l]);
    KeyLtIff(apps, t[l], t[k]);
  }

  lemma NothingBlocked(apps: seq<App>, j: nat)
    requires forall i :: 0 <= i < |apps| ==> apps[i].dependsOn == []
    ensures !Blocked(apps, j)
  {
    forall c ensures !Cycle(apps, c) {
      if |c| > 1 {
        assert Deps(apps, c[0]) == {} && c[1] !in Deps(apps, c[0]);
      }
    }
  }
}
