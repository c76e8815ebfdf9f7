/** Names the daemon picks for processes started without one
    (`generate_auto_name` in src/process_manager.rs). */
module AutoName {
  import opened Domain
  import Text

  function Suffixed(base: string, k: nat): string {
    base + "-" + Text.Decimal(k)
  }

  lemma SuffixedInjective(base: string, j: nat, k: nat)
    requires Suffixed(base, j) == Suffixed(base, k)
    ensures j == k
  {
    assert Text.Decimal(j) == Suffixed(base, j)[|base| + 1..];
    assert Text.Decimal(k) == Suffixed(base, k)[|base| + 1..];
    Text.DecimalInjective(j, k);
  }

  /** `r` is the base, or carries the least suffix not in use. */
  ghost predicate IsAutoName(used: set<string>, base: string, r: string) {
    && r !in used
    && (r == base
        || (base in used
            && exists k :: k >= 1 && r == base + "-" + Text.Decimal(k) && AllInUse(used, base, k)))
  }

  /** Every number from one up to `k` is taken. */
  ghost predicate AllInUse(used: set<string>, base: string, k: nat) {
    forall j :: 1 <= j < k ==> base + "-" + Text.Decimal(j) in used
  }

  lemma AllTried(used: set<string>, base: string, k: nat)
    requires forall j :: 1 <= j < k ==> Suffixed(base, j) in used
    ensures AllInUse(used, base, k) && Suffixed(base, k) == base + "-" + Text.Decimal(k)
  {
    forall j | 1 <= j < k ensures base + "-" + Text.Decimal(j) in used {
      assert Suffixed(base, j) in used;
    }
  }

  /** The suffixes tried so far are distinct names in use, so the search ends
      before it has tried more suffixes than there are names. */
  method GenerateAutoName(used: set<string>, base: string) returns (r: string)
    requires |used| < U64_MAX
    ensures IsAutoName(used, base, r)
  {
    if base !in used {
      return base;
    }
    var suffix := 1;
    ghost var untried := used;
    while true
      invariant 1 <= suffix && untried <= used
      invariant |untried| == |used| - (suffix - 1)
      invariant forall j :: 1 <= j < suffix ==> Suffixed(base, j) in used
      invariant forall j :: suffix <= j && Suffixed(base, j) in used ==> Suffixed(base, j) in untried
      decreases |untried|
    {
      var candidate := Suffixed(base, suffix);
      if candidate !in used {
        AllTried(used, base, suffix);
        return candidate;
      }
      forall j | suffix < j && Suffixed(base, j) in used ensures Suffixed(base, j) in untried - {candidate} {
        if Suffixed(base, j) == candidate {
          SuffixedInjective(base, j, suffix);
        }
      }
      untried := untried - {candidate};
      suffix := SatAdd(suffix, 1, U64_MAX);
    }
  }

  /** The name is determined by the names in use. */
  lemma AutoNameUnique(used: set<string>, base: string, r: string, r': string)
    requires IsAutoName(used, base, r) && IsAutoName(used, base, r')
    ensures r == r'
  {
  }
}
