/** Size-triggered rotation of one log file (`rotate_log_if_needed` and
    `cleanup_rotated_logs` in src/logging.rs). File 0 is the log being written,
    file `i` its `i`-th rotated predecessor. */
module LogRotation {
  import opened Prelude

  type Files = map<nat, seq<Byte>>

  function Content(files: Files, i: nat): seq<Byte> {
    if i in files then files[i] else []
  }

  /** Everything still on disk in the first `k + 1` files, oldest first. */
  function History(files: Files, k: nat): seq<Byte> {
    if k == 0 then Content(files, 0) else Content(files, k) + History(files, k - 1)
  }

  /** Where the content of file `i` comes from when the files above `k` have been
      shifted up by one and the one at `maxFiles` dropped. */
  function SourceOf(maxFiles: nat, k: int, i: nat): Option<nat>
    requires -1 <= k
  {
    if i <= k || i > maxFiles then Some(i)
    else if i == k + 1 then None
    else Some((i - 1) as nat)
  }

  ghost predicate ShiftedAbove(before: Files, after: Files, maxFiles: nat, k: int)
    requires -1 <= k
  {
    forall i: nat :: var source := SourceOf(maxFiles, k, i);
                if source.None? then i !in after
                else (i in after <==> source.value in before)
                     && (i in after ==> after[i] == before[source.value])
  }

  /** The renaming of one file, once those above it have moved. */
  function Moved(files: Files, maxFiles: nat, idx: nat): Files {
    if idx in files && idx < maxFiles then files[idx + 1 := files[idx]] - {idx} else files - {idx}
  }

  lemma SlotAboveIsFree(before: Files, sofar: Files, maxFiles: nat, idx: nat)
    requires idx <= maxFiles && ShiftedAbove(before, sofar, maxFiles, idx)
    ensures idx < maxFiles ==> idx + 1 !in sofar && sofar - {idx + 1} == sofar
    ensures idx in sofar <==> idx in before
  {
    assert SourceOf(maxFiles, idx, idx) == Some(idx);
    if idx < maxFiles {
      assert SourceOf(maxFiles, idx, idx + 1) == None;
    }
  }

  lemma ShiftStep(before: Files, sofar: Files, after: Files, maxFiles: nat, idx: nat)
    requires idx <= maxFiles && ShiftedAbove(before, sofar, maxFiles, idx)
    requires after == Moved(sofar, maxFiles, idx)
    ensures ShiftedAbove(before, after, maxFiles, idx - 1)
  {
    forall i: nat
      ensures var source := SourceOf(maxFiles, idx - 1, i);
              if source.None? then i !in after
              else (i in after <==> source.value in before) && (i in after ==> after[i] == before[source.value])
    {
      assert SourceOf(maxFiles, idx, i) == SourceOf(maxFiles, idx - 1, i) || i == idx || i == idx + 1;
      assert SourceOf(maxFiles, idx, idx) == Some(idx);
    }
  }

  lemma ShiftedContent(before: Files, after: Files, maxFiles: nat, k: int, n: nat)
    requires -1 <= k && n <= maxFiles && ShiftedAbove(before, after, maxFiles, k)
    ensures Content(after, n) == if n <= k then Content(before, n)
                                 else if n == k + 1 then [] else Content(before, n - 1)
  {
    assert SourceOf(maxFiles, k, n) == if n <= k then Some(n) else if n == k + 1 then None else Some((n - 1) as nat);
  }

  /** A partial or complete shift loses the oldest file and nothing else. */
  lemma {:induction false} ShiftConserves(before: Files, after: Files, maxFiles: nat, k: int, n: nat)
    requires -1 <= k < maxFiles && n <= maxFiles && ShiftedAbove(before, after, maxFiles, k)
    ensures History(after, n) == if n <= k then History(before, n)
                                 else if n == 0 then []
                                 else History(before, n - 1)
  {
    ShiftedContent(before, after, maxFiles, k, n);
    if n > 0 {
      ShiftConserves(before, after, maxFiles, k, n - 1);
      ShiftConservesStep(before, after, k, n);
    }
  }

  lemma ShiftConservesStep(before: Files, after: Files, k: int, n: nat)
    requires n > 0
    requires Content(after, n) == if n <= k then Content(before, n)
                                  else if n == k + 1 then [] else Content(before, n - 1)
    requires History(after, n - 1) == if n - 1 <= k then History(before, n - 1)
                                      else if n - 1 == 0 then [] else History(before, n - 2)
    ensures History(after, n) == if n <= k then History(before, n) else History(before, n - 1)
  {
    assert History(after, n) == Content(after, n) + History(after, n - 1);
    if n == k + 1 {
      assert [] + History(after, n - 1) == History(after, n - 1);
    } else if n == 1 && k < n {
      assert Content(before, 0) + [] == Content(before, 0);
    }
  }

  lemma OldestIsLost(before: Files, after: Files, maxFiles: nat, k: int)
    requires -1 <= k < maxFiles && ShiftedAbove(before, after, maxFiles, k)
    ensures History(before, maxFiles) == Content(before, maxFiles) + History(after, maxFiles)
  {
    ShiftConserves(before, after, maxFiles, k, maxFiles);
  }

  lemma Regrouped(a: seq<Byte>, b: seq<Byte>, c: seq<Byte>)
    ensures a + (b + c) == (a + b) + c
  {
  }

  lemma ShiftRaisesByOne(before: Files, after: Files, maxFiles: nat, k: int, highest: nat)
    requires -1 <= k < maxFiles && ShiftedAbove(before, after, maxFiles, k)
    requires forall i :: i in before ==> i <= highest
    ensures forall i :: i in after ==> i <= highest + 1
    ensures highest < maxFiles ==> Content(before, maxFiles) == []
  {
    forall i | i in after ensures i <= highest + 1 {
      var source := SourceOf(maxFiles, k, i);
      assert source.value in before;
    }
  }

  lemma {:induction false} HistoryAfterAppend(before: Files, after: Files, bytes: seq<Byte>, n: nat)
    requires after == before[0 := Content(before, 0) + bytes]
    ensures History(after, n) == History(before, n) + bytes
  {
    if n > 0 {
      HistoryAfterAppend(before, after, bytes, n - 1);
      assert Content(after, n) == Content(before, n);
    }
  }

  lemma {:induction false} SameHistory(before: Files, after: Files, n: nat)
    requires forall i :: 0 <= i <= n ==> Content(after, i) == Content(before, i)
    ensures History(after, n) == History(before, n)
  {
    if n > 0 {
      SameHistory(before, after, n - 1);
    }
  }

  /** Every file up to the limit is the one below it of before, and files beyond the limit
      are as they were. */
  ghost predicate RotatedUp(before: Files, after: Files, maxFiles: nat) {
    && (forall i :: 1 <= i <= maxFiles ==>
                      (i in after <==> i - 1 in before) && (i in after ==> after[i] == before[i - 1]))
    && (forall i :: i > maxFiles ==> (i in after <==> i in before) && (i in after ==> after[i] == before[i]))
  }

  lemma ShiftedIsRotated(before: Files, after: Files, maxFiles: nat)
    requires ShiftedAbove(before, after, maxFiles, -1)
    ensures 0 !in after && RotatedUp(before, after, maxFiles)
  {
    assert SourceOf(maxFiles, -1, 0).None?;
    forall i | 1 <= i <= maxFiles
      ensures (i in after <==> i - 1 in before) && (i in after ==> after[i] == before[i - 1])
    {
      assert SourceOf(maxFiles, -1, i) == Some((i - 1) as nat);
    }
    forall i | i > maxFiles ensures (i in after <==> i in before) && (i in after ==> after[i] == before[i]) {
      assert SourceOf(maxFiles, -1, i) == Some(i);
    }
  }

  /** What clean-up leaves: no rotated file beyond the limit, none that is too old. */
  function Kept(files: Files, maxFiles: nat, aged: set<nat>): Files {
    map i | i in files && (i == 0 || (i <= maxFiles && i !in aged)) :: files[i]
  }

  /** One log under a rotation policy, with a record of all that was written to it. */
  class RotatedLog {
    var files: Files
    const maxSize: nat
    const maxFiles: nat
    ghost var written: seq<Byte>
    ghost var lost: seq<Byte>
    ghost var rotations: nat

    /** What is on disk is exactly what was written, minus what rotated out; and
        nothing rotates out before there were more rotations than files to keep. */
    ghost predicate Conserved()
      reads this
    {
      && written == lost + History(files, maxFiles)
      && (forall i :: i in files ==> i <= rotations)
      && (rotations <= maxFiles ==> lost == [])
    }

    constructor (maxSize: nat, maxFiles: nat)
      ensures Conserved() && files == map[] && written == [] && rotations == 0
      ensures this.maxSize == maxSize && this.maxFiles == maxFiles
    {
      this.maxSize, this.maxFiles := maxSize, maxFiles;
      files := map[];
      written, lost, rotations := [], [], 0;
      new;
      EmptyHistory(maxFiles);
    }

    method Append(bytes: seq<Byte>)
      requires Conserved()
      modifies this
      ensures Conserved() && written == old(written) + bytes && lost == old(lost)
      ensures History(files, maxFiles) == old(History(files, maxFiles)) + bytes
    {
      ghost var before := files;
      files := files[0 := Content(files, 0) + bytes];
      written := written + bytes;
      HistoryAfterAppend(before, files, bytes, maxFiles);
    }

    predicate NeedsRotation()
      reads this
    {
      maxSize > 0 && maxFiles > 0 && 0 in files && |files[0]| >= maxSize
    }

    /** Rotates when the log is full. `failsAt` is the file whose renaming fails, if
        any; then the files above it have already been shifted. */
    method RotateIfNeeded(failsAt: Option<nat>) returns (ok: bool)
      requires Conserved()
      modifies this
      ensures Conserved() && written == old(written)
      ensures !old(NeedsRotation()) ==> ok && files == old(files)
      ensures maxSize == 0 || maxFiles == 0 || 0 !in old(files) || |old(files)[0]| < maxSize ==>
                ok && files == old(files)
      ensures maxSize > 0 && maxFiles > 0 && 0 in old(files) && |old(files)[0]| >= maxSize && ok ==>
                0 !in files && RotatedUp(old(files), files, maxFiles)
      ensures old(NeedsRotation()) && ok ==> ShiftedAbove(old(files), files, maxFiles, -1)
      ensures old(NeedsRotation()) && !ok ==>
                failsAt.Some? && failsAt.value < maxFiles && ShiftedAbove(old(files), files, maxFiles, failsAt.value)
      ensures old(NeedsRotation()) ==> lost == old(lost) + Content(old(files), maxFiles)
      ensures old(NeedsRotation()) ==>
                old(History(files, maxFiles)) == Content(old(files), maxFiles) + History(files, maxFiles)
      ensures !old(NeedsRotation()) ==> lost == old(lost)
    {
      if maxSize == 0 || maxFiles == 0 || 0 !in files || |files[0]| < maxSize {
        return true;
      }
      ghost var before := files;
      ghost var stoppedAt: int;
      ok, stoppedAt := Shift(failsAt);
      rotations := rotations + 1;
      lost := lost + Content(before, maxFiles);
      OldestIsLost(before, files, maxFiles, stoppedAt);
      Regrouped(old(lost), Content(before, maxFiles), History(files, maxFiles));
      ShiftRaisesByOne(before, files, maxFiles, stoppedAt, rotations - 1);
      if ok {
        ShiftedIsRotated(before, files, maxFiles);
      }
    }

    method Shift(failsAt: Option<nat>) returns (ok: bool, ghost stoppedAt: int)
      requires maxFiles > 0 && 0 in files
      modifies this`files
      ensures -1 <= stoppedAt < maxFiles && ShiftedAbove(old(files), files, maxFiles, stoppedAt)
      ensures ok ==> stoppedAt == -1
      ensures !ok ==> failsAt.Some? && failsAt.value < maxFiles && stoppedAt == failsAt.value
    {
      ghost var before := files;
      var idx := maxFiles;
      while idx > 0
        invariant 0 <= idx <= maxFiles && 0 in before
        invariant ShiftedAbove(before, files, maxFiles, idx)
      {
        ok := ShiftOne(idx, failsAt, before);
        if !ok {
          return false, idx;
        }
        idx := idx - 1;
      }
      SlotAboveIsFree(before, files, maxFiles, 0);
      ghost var sofar := files;
      files := files - {1};
      if failsAt == Some(0) {
        return false, 0;
      }
      files := files[1 := files[0]] - {0};
      ShiftStep(before, sofar, files, maxFiles, 0);
      return true, -1;
    }

    method ShiftOne(idx: nat, failsAt: Option<nat>, ghost before: Files) returns (ok: bool)
      requires 0 < idx <= maxFiles && ShiftedAbove(before, files, maxFiles, idx)
      modifies this`files
      ensures ok ==> ShiftedAbove(before, files, maxFiles, idx - 1)
      ensures !ok ==> failsAt == Some(idx) && idx < maxFiles && files == old(files)
    {
      ghost var sofar := files;
      SlotAboveIsFree(before, files, maxFiles, idx);
      if idx in files {
        if idx == maxFiles {
          files := files - {idx};
        } else {
          files := files - {idx + 1};
          if failsAt == Some(idx) {
            return false;
          }
          files := files[idx + 1 := files[idx]] - {idx};
        }
      }
      ShiftStep(before, sofar, files, maxFiles, idx);
      return true;
    }

    /** Removes rotated files beyond the limit, and those the caller finds too old. */
    method Cleanup(aged: set<nat>)
      requires Conserved()
      modifies this`files
      ensures files == Kept(old(files), maxFiles, aged)
      ensures forall i :: i in files <==> i in old(files) && (i == 0 || (i <= maxFiles && i !in aged))
      ensures forall i :: i in files ==> files[i] == old(files)[i]
      ensures aged == {} ==> Conserved() && History(files, maxFiles) == old(History(files, maxFiles))
    {
      ghost var before := files;
      files := Kept(files, maxFiles, aged);
      if aged == {} {
        SameHistory(before, files, maxFiles);
      }
    }

    /** Before a process is spawned: rotation first, clean-up only if it went well.
        `rotated` holds the files in between. */
    method Prepare(failsAt: Option<nat>, aged: set<nat>) returns (ok: bool, ghost rotated: Files)
      requires Conserved()
      modifies this
      ensures written == old(written) && (!ok || aged == {} ==> Conserved())
      ensures !old(NeedsRotation()) ==> ok && rotated == old(files) && lost == old(lost)
      ensures old(NeedsRotation()) ==> lost == old(lost) + Content(old(files), maxFiles)
      ensures old(NeedsRotation()) && ok ==> ShiftedAbove(old(files), rotated, maxFiles, -1)
      ensures old(NeedsRotation()) && !ok ==>
                failsAt.Some? && failsAt.value < maxFiles && ShiftedAbove(old(files), rotated, maxFiles, failsAt.value)
      ensures files == if ok then Kept(rotated, maxFiles, aged) else rotated
      ensures old(NeedsRotation()) ==>
                old(History(files, maxFiles)) == Content(old(files), maxFiles) + History(rotated, maxFiles)
      ensures aged == {} ==> History(files, maxFiles) == History(rotated, maxFiles)
    {
      ok := RotateIfNeeded(failsAt);
      rotated := files;
      if ok {
        Cleanup(aged);
      }
    }
  }

  lemma {:induction false} EmptyHistory(n: nat)
    ensures History(map[], n) == []
  {
    if n > 0 {
      EmptyHistory(n - 1);
    }
  }

  /** The order of what is kept is the order it was written in. */
  lemma HistoryIsSuffix(log: RotatedLog)
    requires log.Conserved()
    ensures var kept := History(log.files, log.maxFiles);
            |kept| <= |log.written| && log.written[|log.written| - |kept|..] == kept
    ensures log.rotations <= log.maxFiles ==> History(log.files, log.maxFiles) == log.written
  {
  }
}
