/** Collecting names in a set until one comes up twice, as the program checks lists for
    duplicate names. */
module NameSets {
  import opened Prelude

  predicate NoDuplicates(names: seq<string>) {
    forall i, j :: 0 <= i < j < |names| ==> names[i] != names[j]
  }

  /** `seen` are the names inserted so far. */
  ghost predicate Seen(seen: set<string>, names: seq<string>) {
    NoDuplicates(names) && forall n :: n in seen <==> n in names
  }

  lemma SeenOneMore(seen: set<string>, names: seq<string>, n: string)
    requires Seen(seen, names)
    ensures n !in seen ==> Seen(seen + {n}, names + [n])
    ensures n in seen ==> forall rest: seq<string> :: !NoDuplicates(names + [n] + rest)
  {
    if n in seen {
      var i :| 0 <= i < |names| && names[i] == n;
      forall rest: seq<string> ensures !NoDuplicates(names + [n] + rest) {
        var all := names + [n] + rest;
        assert all[i] == all[|names|];
      }
    }
  }

  /** Inserts names until one is already there. */
  method InsertAll(seen: set<string>, names: seq<string>, ghost before: seq<string>)
    returns (r: Result<set<string>, string>)
    requires Seen(seen, before)
    ensures r.Ok? <==> NoDuplicates(before + names)
    ensures r.Ok? ==> Seen(r.value, before + names)
    ensures r.Err? ==> r.error in names
  {
    var all := seen;
    assert before + names[..0] == before;
    for k := 0 to |names|
      invariant Seen(all, before + names[..k])
    {
      SeenOneMore(all, before + names[..k], names[k]);
      assert before + names == before + names[..k] + [names[k]] + names[k + 1..];
      if names[k] in all {
        return Err(names[k]);
      }
      assert before + names[..k + 1] == before + names[..k] + [names[k]];
      all := all + {names[k]};
    }
    assert names[..|names|] == names;
    return Ok(all);
  }
}
