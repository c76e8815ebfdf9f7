/** Sorting strings, as the program does before it renders unordered settings. */
module Sorting {
  import Text

  predicate StrLe(a: string, b: string) {
    a == b || Text.StrLt(a, b)
  }

  ghost predicate Ascending(s: seq<string>) {
    forall i :: 0 < i < |s| ==> StrLe(s[i - 1], s[i])
  }

  function Insert(x: string, s: seq<string>): seq<string> {
    if s == [] then [x]
    else if StrLe(x, s[0]) then [x] + s
    else [s[0]] + Insert(x, s[1..])
  }

  function Sorted(s: seq<string>): seq<string> {
    if s == [] then [] else Insert(s[0], Sorted(s[1..]))
  }

  lemma {:induction false} InsertKeeps(x: string, s: seq<string>)
    ensures multiset(Insert(x, s)) == multiset(s) + multiset{x}
    ensures Ascending(s) ==> Ascending(Insert(x, s))
  {
    if s != [] && !StrLe(x, s[0]) {
      var rest := Insert(x, s[1..]);
      InsertKeeps(x, s[1..]);
      assert s == [s[0]] + s[1..];
      Text.StrLtTotal(x, s[0]);
      if Ascending(s) {
        assert Ascending(s[1..]) by {
          assert forall i :: 0 < i < |s[1..]| ==> s[1..][i] == s[i + 1] && s[1..][i - 1] == s[i];
        }
        assert rest[0] == x || rest[0] == s[1];
      }
    }
  }

  lemma {:induction false} SortedIsSorted(s: seq<string>)
    ensures multiset(Sorted(s)) == multiset(s) && Ascending(Sorted(s))
  {
    if s != [] {
      SortedIsSorted(s[1..]);
      InsertKeeps(s[0], Sorted(s[1..]));
      assert s == [s[0]] + s[1..];
    }
  }

  lemma {:induction false} FirstIsLeast(s: seq<string>, i: nat)
    requires Ascending(s) && i < |s|
    ensures StrLe(s[0], s[i])
  {
    if i > 0 {
      FirstIsLeast(s, i - 1);
      if s[0] != s[i - 1] && s[i - 1] != s[i] {
        Text.StrLtTransitive(s[0], s[i - 1], s[i]);
      }
    }
  }

  /** A multiset of strings has one ascending arrangement. */
  lemma {:induction false} AscendingUnique(s: seq<string>, t: seq<string>)
    requires Ascending(s) && Ascending(t) && multiset(s) == multiset(t)
    ensures s == t
  {
    assert |s| == |multiset(s)| == |multiset(t)| == |t|;
    if s != [] {
      assert s[0] in multiset(t) && t[0] in multiset(s);
      var i :| 0 <= i < |t| && t[i] == s[0];
      var j :| 0 <= j < |s| && s[j] == t[0];
      FirstIsLeast(t, i);
      FirstIsLeast(s, j);
      if s[0] != t[0] {
        Text.StrLtTransitive(s[0], t[0], s[0]);
        Text.StrLtIrreflexive(s[0]);
      }
      AscendingTail(s);
      AscendingTail(t);
      assert multiset(s[1..]) == multiset(s) - multiset{s[0]};
      assert multiset(t[1..]) == multiset(t) - multiset{t[0]};
      AscendingUnique(s[1..], t[1..]);
    }
  }

  lemma AscendingTail(s: seq<string>)
    requires Ascending(s) && s != []
    ensures Ascending(s[1..]) && s == [s[0]] + s[1..]
  {
  }

  /** Sorting forgets exactly the order. */
  lemma SortedIsCanonical(s: seq<string>, t: seq<string>)
    ensures Sorted(s) == Sorted(t) <==> multiset(s) == multiset(t)
  {
    SortedIsSorted(s);
    SortedIsSorted(t);
    if multiset(s) == multiset(t) {
      AscendingUnique(Sorted(s), Sorted(t));
    }
  }

  /** A set as a list, in any order. */
  ghost predicate Lists(s: seq<string>, keys: set<string>) {
    multiset(s) == multiset(keys)
  }

  method SortStrings(items: seq<string>) returns (r: seq<string>)
    ensures r == Sorted(items)
  {
    r := [];
    var k := |items|;
    while k > 0
      invariant 0 <= k <= |items| && r == Sorted(items[k..])
    {
      k := k - 1;
      assert items[k..][1..] == items[k + 1..];
      r := Insert(items[k], r);
    }
    assert items[0..] == items;
  }
}
