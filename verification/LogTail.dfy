/** Reading the last lines of a log file backwards in chunks
    (`read_last_lines` in src/logging.rs). */
module LogTail {
  import opened Prelude

  const NEWLINE: Byte := 10
  const RETURN: Byte := 13

  // ---------------------------------------------------------------------
  // Lines of a text
  // ---------------------------------------------------------------------

  function CountNewlines(s: seq<Byte>): nat {
    if s == [] then 0 else (if s[0] == NEWLINE then 1 else 0) + CountNewlines(s[1..])
  }

  /** The position of the first newline, or the length of the text. */
  function FirstNewline(s: seq<Byte>): (p: nat)
    ensures p <= |s| && (forall i :: 0 <= i < p ==> s[i] != NEWLINE)
    ensures p < |s| ==> s[p] == NEWLINE
  {
    if s == [] || s[0] == NEWLINE then 0 else 1 + FirstNewline(s[1..])
  }

  /** A terminated line loses a carriage return before its newline. */
  function WithoutReturn(line: seq<Byte>): seq<Byte> {
    if line != [] && line[|line| - 1] == RETURN then line[..|line| - 1] else line
  }

  function HeadLine(s: seq<Byte>): seq<Byte> {
    var p := FirstNewline(s);
    if p == |s| then s else WithoutReturn(s[..p])
  }

  function Rest(s: seq<Byte>): (r: seq<Byte>)
    ensures s != [] ==> |r| < |s|
  {
    var p := FirstNewline(s);
    if p == |s| then [] else s[p + 1..]
  }

  /** The lines of a text: terminated by newlines, the last one possibly not. */
  function Lines(s: seq<Byte>): seq<seq<Byte>>
    decreases |s|
  {
    if s == [] then [] else [HeadLine(s)] + Lines(Rest(s))
  }

  function Last<T>(s: seq<T>, n: nat): seq<T> {
    if |s| <= n then s else s[|s| - n..]
  }

  // ---------------------------------------------------------------------
  // The reader
  // ---------------------------------------------------------------------

  function Joined(chunks: seq<seq<Byte>>): seq<Byte> {
    if chunks == [] then [] else Joined(chunks[1..]) + chunks[0]
  }

  method ChunksFromEnd(file: seq<Byte>, chunkSize: nat, maxLines: nat)
    returns (chunks: seq<seq<Byte>>, offset: nat)
    requires chunkSize > 0
    ensures offset <= |file| && Joined(chunks) == file[offset..]
    ensures offset == 0 || CountNewlines(file[offset..]) > maxLines
  {
    offset := |file|;
    var newlineCount := 0;
    chunks := [];
    while offset > 0 && newlineCount <= maxLines
      invariant offset <= |file| && Joined(chunks) == file[offset..]
      invariant newlineCount == CountNewlines(file[offset..])
      decreases offset
    {
      var readLen := if chunkSize < offset then chunkSize else offset;
      var start := offset - readLen;
      var chunk := file[start..offset];
      var newlines := CountIn(chunk);
      assert file[start..] == chunk + file[offset..];
      CountConcat(chunk, file[offset..]);
      JoinedPush(chunks, chunk);
      newlineCount := newlineCount + newlines;
      chunks := chunks + [chunk];
      offset := start;
    }
  }

  method CountIn(chunk: seq<Byte>) returns (n: nat)
    ensures n == CountNewlines(chunk)
  {
    n := 0;
    for k := 0 to |chunk|
      invariant n == CountNewlines(chunk[..k])
    {
      assert chunk[..k + 1] == chunk[..k] + [chunk[k]];
      CountConcat(chunk[..k], [chunk[k]]);
      if chunk[k] == NEWLINE {
        n := n + 1;
      }
    }
    assert chunk[..|chunk|] == chunk;
  }

  /** The last `maxLines` lines of a file, whatever the size of the chunks and
      wherever their boundaries fall. */
  method ReadLastLines(file: Option<seq<Byte>>, chunkSize: nat, maxLines: nat) returns (r: seq<seq<Byte>>)
    requires chunkSize > 0
    ensures r == if file.None? then [] else Last(Lines(file.value), maxLines)
    ensures file.Some? && maxLines > 0 ==> EndOfFile(file.value, r, maxLines)
  {
    if file.Some? && maxLines > 0 {
      LastIsEnd(file.value, maxLines);
    }
    if maxLines == 0 || file.None? {
      return [];
    }
    if file.value == [] {
      return [];
    }
    var chunks, offset := ChunksFromEnd(file.value, chunkSize, maxLines);
    var bytes := Reassemble(chunks);
    r := KeepLast(bytes, maxLines);
    SuffixSuffices(file.value, offset, maxLines);
  }

  method Reassemble(chunks: seq<seq<Byte>>) returns (bytes: seq<Byte>)
    ensures bytes == Joined(chunks)
  {
    bytes := [];
    var k := |chunks|;
    while k > 0
      invariant 0 <= k <= |chunks| && bytes == Joined(chunks[k..])
    {
      k := k - 1;
      assert chunks[k..][1..] == chunks[k + 1..];
      bytes := bytes + chunks[k];
    }
    assert chunks[0..] == chunks;
  }

  /** Runs over the lines keeping the latest in a ring. */
  method KeepLast(text: seq<Byte>, maxLines: nat) returns (ring: seq<seq<Byte>>)
    ensures ring == Last(Lines(text), maxLines)
  {
    ring := [];
    var rest := text;
    ghost var seen: seq<seq<Byte>> := [];
    while rest != []
      invariant seen + Lines(rest) == Lines(text)
      invariant ring == Last(seen, maxLines)
      decreases |rest|
    {
      var line := HeadLine(rest);
      PushLast(seen, line, maxLines);
      Shift(seen, line, Lines(Rest(rest)));
      ring := ring + [line];
      if |ring| > maxLines {
        ring := ring[1..];
      }
      rest := Rest(rest);
      seen := seen + [line];
    }
    assert Lines(rest) == [] && seen + [] == seen;
  }

  lemma Shift<T>(a: seq<T>, x: T, b: seq<T>)
    ensures a + ([x] + b) == (a + [x]) + b
  {
  }

  lemma PushLast<T>(s: seq<T>, x: T, n: nat)
    ensures Last(s + [x], n) == if |Last(s, n)| + 1 > n then (Last(s, n) + [x])[1..] else Last(s, n) + [x]
  {
    if |s| >= n {
      assert (s[|s| - n..] + [x])[1..] == (s + [x])[|s| + 1 - n..];
    }
  }

  // ---------------------------------------------------------------------
  // Why a suffix with enough newlines suffices
  // ---------------------------------------------------------------------

  lemma {:induction false} CountConcat(a: seq<Byte>, b: seq<Byte>)
    ensures CountNewlines(a + b) == CountNewlines(a) + CountNewlines(b)
  {
    if a == [] {
      assert a + b == b;
    } else {
      CountConcat(a[1..], b);
      assert (a + b)[1..] == a[1..] + b;
    }
  }

  lemma {:induction false} JoinedPush(chunks: seq<seq<Byte>>, chunk: seq<Byte>)
    ensures Joined(chunks + [chunk]) == chunk + Joined(chunks)
  {
    if chunks != [] {
      JoinedPush(chunks[1..], chunk);
      assert (chunks + [chunk])[1..] == chunks[1..] + [chunk];
    } else {
      assert Joined([chunk]) == Joined([]) + chunk;
    }
  }

  /** A text has as many lines as newlines, and one more if its end is unterminated. */
  lemma {:induction false} LineCount(s: seq<Byte>)
    ensures CountNewlines(s) <= |Lines(s)| <= CountNewlines(s) + 1
    decreases |s|
  {
    if s != [] {
      CountRest(s, FirstNewline(s));
      LineCount(Rest(s));
      assert Rest(s) == [] ==> Lines(Rest(s)) == [];
    }
  }

  lemma {:induction false} CountRest(s: seq<Byte>, p: nat)
    requires p == FirstNewline(s)
    ensures CountNewlines(s) == CountNewlines(Rest(s)) + if p == |s| then 0 else 1
  {
    if p > 0 {
      CountRest(s[1..], p - 1);
      assert p < |s| ==> s[1..][p..] == s[p + 1..];
    }
  }

  /** Cutting a text right after a newline cuts its lines. */
  lemma {:induction false} LinesSplit(a: seq<Byte>, b: seq<Byte>)
    requires a != [] && a[|a| - 1] == NEWLINE
    ensures Lines(a + b) == Lines(a) + Lines(b)
    decreases |a|
  {
    HeadOfConcat(a, b);
    LinesStep(a);
    LinesStep(a + b);
    if Rest(a) == [] {
      assert Rest(a) + b == b;
      Glue(HeadLine(a), Lines(a + b), Lines(a), Lines(b), [], Lines(b));
    } else {
      LinesSplit(Rest(a), b);
      Glue(HeadLine(a), Lines(a + b), Lines(a), Lines(Rest(a) + b), Lines(Rest(a)), Lines(b));
    }
  }

  lemma LinesStep(s: seq<Byte>)
    requires s != []
    ensures Lines(s) == [HeadLine(s)] + Lines(Rest(s))
  {
  }

  lemma Glue<T>(x: T, whole: seq<T>, left: seq<T>, inner: seq<T>, a: seq<T>, b: seq<T>)
    requires whole == [x] + inner && left == [x] + a && inner == a + b
    ensures whole == left + b
  {
  }

  lemma HeadOfConcat(a: seq<Byte>, b: seq<Byte>)
    requires a != [] && a[|a| - 1] == NEWLINE
    ensures HeadLine(a + b) == HeadLine(a) && Rest(a + b) == Rest(a) + b
    ensures Rest(a) != [] ==> Rest(a)[|Rest(a)| - 1] == NEWLINE
  {
    var p := FirstNewline(a);
    FirstInConcat(a, b);
    assert (a + b)[..p] == a[..p] && (a + b)[p + 1..] == a[p + 1..] + b;
  }

  lemma {:induction false} FirstInConcat(a: seq<Byte>, b: seq<Byte>)
    requires FirstNewline(a) < |a|
    ensures FirstNewline(a + b) == FirstNewline(a)
  {
    if a[0] != NEWLINE {
      FirstInConcat(a[1..], b);
      assert (a + b)[1..] == a[1..] + b;
    }
  }

  /** Beyond `maxLines` newlines, what lies before does not matter: the cut may fall
      inside a line, but that line is not among the last ones. */
  lemma SuffixSuffices(file: seq<Byte>, offset: nat, maxLines: nat)
    requires offset <= |file| && (offset == 0 || CountNewlines(file[offset..]) > maxLines)
    ensures Last(Lines(file[offset..]), maxLines) == Last(Lines(file), maxLines)
  {
    if offset > 0 {
      var s := file[offset..];
      var p := FirstNewline(s);
      CountRest(s, p);
      Cut(file, offset, p);
      SameTail(file, s, file[..offset + p + 1], s[..p + 1], s[p + 1..], maxLines);
    } else {
      assert file[0..] == file;
    }
  }

  lemma Cut(file: seq<Byte>, offset: nat, p: nat)
    requires offset + p < |file|
    ensures var s, before := file[offset..], file[..offset + p + 1];
            && file == before + s[p + 1..] && s == s[..p + 1] + s[p + 1..]
            && before[|before| - 1] == s[..p + 1][p] == s[p]
  {
  }

  lemma SameTail(file: seq<Byte>, s: seq<Byte>, before: seq<Byte>, first: seq<Byte>, tail: seq<Byte>, maxLines: nat)
    requires before != [] && before[|before| - 1] == NEWLINE && file == before + tail
    requires first != [] && first[|first| - 1] == NEWLINE && s == first + tail
    requires CountNewlines(tail) >= maxLines
    ensures Last(Lines(s), maxLines) == Last(Lines(file), maxLines)
  {
    TailDecides(file, before, tail, maxLines);
    TailDecides(s, first, tail, maxLines);
  }

  lemma TailDecides(whole: seq<Byte>, head: seq<Byte>, tail: seq<Byte>, maxLines: nat)
    requires head != [] && head[|head| - 1] == NEWLINE && CountNewlines(tail) >= maxLines && whole == head + tail
    ensures Last(Lines(whole), maxLines) == Last(Lines(tail), maxLines)
  {
    LinesSplit(head, tail);
    LineCount(tail);
    LastOfConcat(Lines(head), Lines(tail), maxLines);
  }

  lemma LastOfConcat<T>(a: seq<T>, b: seq<T>, n: nat)
    requires |b| >= n
    ensures Last(a + b, n) == Last(b, n)
  {
  }

  // ---------------------------------------------------------------------
  // What a line is
  // ---------------------------------------------------------------------

  /** `line` is what stands before its end: a newline, or a return and a newline. The last
      line may have no end. A return that belongs to the end is not part of the line. */
  ghost predicate EndsWith(line: seq<Byte>, end: seq<Byte>, isLast: bool) {
    && (forall i :: 0 <= i < |line| ==> line[i] != 10)
    && (|| (end == [10] && (line == [] || line[|line| - 1] != 13))
        || end == [13, 10]
        || (end == [] && isLast && line != []))
  }

  /** `s` consists of these lines, each followed by its end. */
  ghost predicate ConsistsOf(lines: seq<seq<Byte>>, ends: seq<seq<Byte>>, s: seq<Byte>) {
    if lines == [] then s == [] && ends == []
    else
      && ends != [] && EndsWith(lines[0], ends[0], |lines| == 1)
      && |lines[0]| + |ends[0]| <= |s|
      && s[..|lines[0]|] == lines[0] && s[|lines[0]|..|lines[0]| + |ends[0]|] == ends[0]
      && ConsistsOf(lines[1..], ends[1..], s[|lines[0]| + |ends[0]|..])
  }

  lemma FirstNewlineIs(line: seq<Byte>, rest: seq<Byte>)
    requires forall i :: 0 <= i < |line| ==> line[i] != NEWLINE
    requires rest == [] || rest[0] == NEWLINE
    ensures FirstNewline(line + rest) == |line|
  {
    var s := line + rest;
    assert s[..|line|] == line;
    assert rest != [] ==> s[|line|] == NEWLINE;
  }

  /** A text begins with one line and its end. */
  lemma HeadIs(s: seq<Byte>, line: seq<Byte>, end: seq<Byte>, isLast: bool)
    requires EndsWith(line, end, isLast) && |line| + |end| <= |s|
    requires s[..|line|] == line && s[|line|..|line| + |end|] == end && (end == [] ==> |s| == |line|)
    ensures s != [] && HeadLine(s) == line && Rest(s) == s[|line| + |end|..]
  {
    var raw := if end == [13, 10] then line + [13] else line;
    assert s == raw + s[|raw|..];
    if end != [] {
      assert s[|line|..|line| + |end|][|end| - 1] == 10;
    }
    FirstNewlineIs(raw, s[|raw|..]);
    assert WithoutReturn(s[..|raw|]) == line || end == [];
  }

  /** The end of the first line. */
  function HeadEnd(s: seq<Byte>): seq<Byte> {
    var p := FirstNewline(s);
    if p == |s| then [] else s[|HeadLine(s)|..p + 1]
  }

  lemma HeadEnds(s: seq<Byte>)
    requires s != []
    ensures var line, end := HeadLine(s), HeadEnd(s);
            && EndsWith(line, end, Rest(s) == []) && |line| + |end| <= |s|
            && s[..|line|] == line && s[|line|..|line| + |end|] == end && Rest(s) == s[|line| + |end|..]
            && (end == [] ==> |s| == |line|)
  {
    var p := FirstNewline(s);
    if p < |s| && p > 0 && s[p - 1] == RETURN {
      assert s[..p][..p - 1] == s[..p - 1];
      assert HeadEnd(s) == [s[p - 1], s[p]];
    }
  }

  /** The ends of all lines. */
  function Ends(s: seq<Byte>): (r: seq<seq<Byte>>)
    decreases |s|
  {
    if s == [] then [] else [HeadEnd(s)] + Ends(Rest(s))
  }

  lemma {:induction false} LinesConsist(s: seq<Byte>)
    ensures ConsistsOf(Lines(s), Ends(s), s)
    decreases |s|
  {
    if s != [] {
      HeadEnds(s);
      LinesConsist(Rest(s));
      assert Lines(s)[1..] == Lines(Rest(s)) && Ends(s)[1..] == Ends(Rest(s));
      assert |Lines(s)| == 1 <==> Rest(s) == [];
    }
  }

  lemma ConsistingStep(lines: seq<seq<Byte>>, ends: seq<seq<Byte>>, s: seq<Byte>)
    requires ConsistsOf(lines, ends, s) && lines != []
    ensures s != [] && ends != [] && HeadLine(s) == lines[0] && ConsistsOf(lines[1..], ends[1..], Rest(s))
  {
    if ends[0] == [] {
      assert lines[1..] == [];
    }
    HeadIs(s, lines[0], ends[0], |lines| == 1);
  }

  lemma {:induction false} ConsistingIsLines(lines: seq<seq<Byte>>, ends: seq<seq<Byte>>, s: seq<Byte>)
    requires ConsistsOf(lines, ends, s)
    ensures lines == Lines(s)
    decreases |lines|
  {
    if lines != [] {
      ConsistingStep(lines, ends, s);
      ConsistingIsLines(lines[1..], ends[1..], Rest(s));
      LinesAre(s, lines[0], lines[1..], lines);
    }
  }

  lemma LinesAre(s: seq<Byte>, line: seq<Byte>, rest: seq<seq<Byte>>, lines: seq<seq<Byte>>)
    requires s != [] && HeadLine(s) == line && Lines(Rest(s)) == rest && lines == [line] + rest
    ensures Lines(s) == lines
  {
  }

  /** A text consists of its lines and their ends, and of no others. */
  lemma LinesIff(s: seq<Byte>, lines: seq<seq<Byte>>)
    ensures lines == Lines(s) <==> IsText(lines, s)
  {
    if lines == Lines(s) {
      LinesConsist(s);
    }
    if ends :| ConsistsOf(lines, ends, s) {
      ConsistingIsLines(lines, ends, s);
    }
  }

  ghost predicate IsText(lines: seq<seq<Byte>>, s: seq<Byte>) {
    exists ends :: ConsistsOf(lines, ends, s)
  }

  function JoinedBy(lines: seq<seq<Byte>>, end: seq<Byte>): seq<Byte> {
    if lines == [] then [] else lines[0] + end + JoinedBy(lines[1..], end)
  }

  /** Lines without newlines, each ended in the same way, read back as they are. A plain
      newline cannot end a line with a return at its end. */
  lemma {:induction false} JoinedReadsBack(lines: seq<seq<Byte>>, end: seq<Byte>)
    requires forall i :: 0 <= i < |lines| ==> EndsWith(lines[i], end, false)
    ensures Lines(JoinedBy(lines, end)) == lines
  {
    if lines != [] {
      var s := JoinedBy(lines, end);
      HeadIs(s, lines[0], end, false);
      assert s[|lines[0]| + |end|..] == JoinedBy(lines[1..], end);
      JoinedReadsBack(lines[1..], end);
    }
  }

  /** The lines are the last ones of the file: what stands before them is nothing or ends
      with a newline, and there is nothing before them if there are fewer than wanted. */
  ghost predicate EndOfFile(file: seq<Byte>, lines: seq<seq<Byte>>, maxLines: nat) {
    |lines| <= maxLines && exists k :: 0 <= k <= |file| && EndsFrom(file, k, lines, maxLines)
  }

  ghost predicate EndsFrom(file: seq<Byte>, k: nat, lines: seq<seq<Byte>>, maxLines: nat)
    requires k <= |file|
  {
    IsText(lines, file[k..]) && (k > 0 ==> file[k - 1] == 10) && (|lines| < maxLines ==> k == 0)
  }

  /** Without its first line a text with too many of them has the same last lines. */
  lemma LastSkips(s: seq<Byte>, n: nat) returns (skipped: nat)
    requires |Lines(s)| > n > 0
    ensures Skips(s, skipped, n)
  {
    skipped := FirstNewline(s) + 1;
    LinesStep(s);
    assert Rest(s) == [] ==> Lines(Rest(s)) == [];
  }

  ghost predicate Skips(s: seq<Byte>, skipped: nat, n: nat) {
    && 0 < skipped <= |s| && s[skipped - 1] == NEWLINE
    && |Lines(s)| > n && Last(Lines(s), n) == Last(Lines(s[skipped..]), n)
  }

  lemma {:induction false} LastBegins(s: seq<Byte>, n: nat)
    requires n > 0
    ensures exists k :: LastFrom(s, k, n)
    decreases |s|
  {
    if |Lines(s)| <= n {
      WholeIsLast(s, n);
    } else {
      var skipped := LastSkips(s, n);
      LastBegins(s[skipped..], n);
      LastBeginsLater(s, skipped, n);
    }
  }

  lemma LastBeginsLater(s: seq<Byte>, skipped: nat, n: nat)
    requires Skips(s, skipped, n) && exists l :: LastFrom(s[skipped..], l, n)
    ensures exists k :: LastFrom(s, k, n)
  {
    var l :| LastFrom(s[skipped..], l, n);
    LastFromLater(s, s[skipped..], skipped, l, n);
  }

  /** The last lines begin at `k`. */
  ghost predicate LastFrom(s: seq<Byte>, k: nat, n: nat) {
    && k <= |s| && Last(Lines(s), n) == Lines(s[k..])
    && (k > 0 ==> s[k - 1] == NEWLINE) && (|Lines(s)| < n ==> k == 0)
  }

  lemma WholeIsLast(s: seq<Byte>, n: nat)
    requires |Lines(s)| <= n
    ensures LastFrom(s, 0, n)
  {
    assert s[0..] == s;
  }

  lemma LastFromLater(s: seq<Byte>, rest: seq<Byte>, skipped: nat, l: nat, n: nat)
    requires 0 < skipped <= |s| && s[skipped - 1] == NEWLINE && rest == s[skipped..] && |Lines(s)| > n
    requires Last(Lines(s), n) == Last(Lines(rest), n) && LastFrom(rest, l, n)
    ensures LastFrom(s, skipped + l, n)
  {
    assert rest[l..] == s[skipped + l..];
    assert l > 0 ==> rest[l - 1] == s[skipped + l - 1];
  }

  lemma LastIsEnd(file: seq<Byte>, maxLines: nat)
    requires maxLines > 0
    ensures EndOfFile(file, Last(Lines(file), maxLines), maxLines)
  {
    LastBegins(file, maxLines);
    var k: nat :| LastFrom(file, k, maxLines);
    LinesIff(file[k..], Lines(file[k..]));
    EndsThere(file, k, Lines(file[k..]), Last(Lines(file), maxLines), maxLines);
  }

  lemma EndsThere(file: seq<Byte>, k: nat, there: seq<seq<Byte>>, last: seq<seq<Byte>>, maxLines: nat)
    requires k <= |file| && IsText(there, file[k..]) && last == there && |last| <= maxLines
    requires (k > 0 ==> file[k - 1] == NEWLINE) && (|last| < maxLines ==> k == 0)
    ensures EndOfFile(file, last, maxLines)
  {
    assert EndsFrom(file, k, last, maxLines);
  }
}
