/** Expansion of variable references in configured values (`expand_vars` in
    src/env_expand.rs). The input is scanned byte by byte. */
module EnvExpand {
  import opened Prelude
  import opened Text

  const DOLLAR: Byte := 0x24
  const OPEN: Byte := 0x7B
  const CLOSE: Byte := 0x7D

  predicate IsVarStart(b: Byte) {
    0x41 <= b <= 0x5A || 0x61 <= b <= 0x7A || b == 0x5F
  }

  predicate IsVarContinue(b: Byte) {
    IsVarStart(b) || 0x30 <= b <= 0x39
  }

  // ---------------------------------------------------------------------
  // The grammar
  // ---------------------------------------------------------------------

  datatype Token =
    | Literal(b: Byte)
    | Escape
    | Braced(name: seq<Byte>)
    | Bare(name: seq<Byte>)
    | LoneDollar

  function Spelled(t: Token): (s: seq<Byte>)
    ensures s != []
  {
    match t
    case Literal(b) => [b]
    case Escape => [DOLLAR, DOLLAR]
    case Braced(name) => [DOLLAR, OPEN] + name + [CLOSE]
    case Bare(name) => [DOLLAR] + name
    case LoneDollar => [DOLLAR]
  }

  predicate WellFormed(t: Token) {
    match t
    case Literal(b) => b != DOLLAR
    case Braced(name) => CLOSE !in name
    case Bare(name) => name != [] && IsVarStart(name[0]) && forall i :: 0 <= i < |name| ==> IsVarContinue(name[i])
    case _ => true
  }

  /** A token ends where it can no longer be longer. */
  predicate EndsBefore(t: Token, rest: seq<Byte>) {
    match t
    case Bare(_) => rest == [] || !IsVarContinue(rest[0])
    case LoneDollar => rest == [] || !(rest[0] == DOLLAR || rest[0] == OPEN || IsVarStart(rest[0]))
    case _ => true
  }

  /** `tokens` spell out `v`. */
  predicate IsReading(tokens: seq<Token>, v: seq<Byte>) {
    if tokens == [] then v == []
    else
      var n := |Spelled(tokens[0])|;
      && WellFormed(tokens[0])
      && n <= |v| && v[..n] == Spelled(tokens[0])
      && EndsBefore(tokens[0], v[n..])
      && IsReading(tokens[1..], v[n..])
  }

  // ---------------------------------------------------------------------
  // The scanner
  // ---------------------------------------------------------------------

  /** The length of the longest prefix that may continue a name. */
  function Span(v: seq<Byte>): (k: nat)
    ensures k <= |v|
  {
    if v == [] || !IsVarContinue(v[0]) then 0 else 1 + Span(v[1..])
  }

  function FindClose(v: seq<Byte>): (r: Option<nat>)
    ensures r.Some? ==> r.value < |v|
  {
    if v == [] then None
    else if v[0] == CLOSE then Some(0)
    else
      var r := FindClose(v[1..]);
      if r.Some? then Some(r.value + 1) else None
  }

  /** The first token, unless a brace is left open. */
  function Head(v: seq<Byte>): (t: Option<Token>)
    requires v != []
    ensures t.Some? ==> |Spelled(t.value)| <= |v|
  {
    if v[0] != DOLLAR then Some(Literal(v[0]))
    else if |v| == 1 then Some(LoneDollar)
    else if v[1] == DOLLAR then Some(Escape)
    else if v[1] == OPEN then BracedHead(v[2..])
    else if IsVarStart(v[1]) then Some(Bare(v[1..][..Span(v[1..])]))
    else Some(LoneDollar)
  }

  function BracedHead(v: seq<Byte>): (t: Option<Token>)
    ensures t.Some? ==> |Spelled(t.value)| <= |v| + 2
  {
    var end := FindClose(v);
    if end.None? then None else Some(Braced(v[..end.value]))
  }

  /** The whole input as tokens. */
  function Scan(v: seq<Byte>): Option<seq<Token>> {
    if v == [] then Some([])
    else
      var t := Head(v);
      if t.None? then None
      else
        var rest := Scan(v[|Spelled(t.value)|..]);
        if rest.None? then None else Some([t.value] + rest.value)
  }

  // ---------------------------------------------------------------------
  // The meaning
  // ---------------------------------------------------------------------

  datatype ExpandError = Unterminated | EmptyName | Unset(name: seq<Byte>)

  /** What one token stands for. Bytes become the characters of the same number. */
  function Substitute(t: Token, lookup: seq<Byte> -> Option<string>): Result<string, ExpandError> {
    match t
    case Literal(b) => Ok([b as char])
    case Escape => Ok("$")
    case LoneDollar => Ok("$")
    case Braced(name) => if name == [] then Err(EmptyName) else Lookup(name, lookup)
    case Bare(name) => Lookup(name, lookup)
  }

  function Lookup(name: seq<Byte>, lookup: seq<Byte> -> Option<string>): Result<string, ExpandError> {
    if lookup(name).Some? then Ok(lookup(name).value) else Err(Unset(name))
  }

  /** Tokens are replaced one by one; what replaces them is not looked at again. */
  function Meaning(tokens: seq<Token>, lookup: seq<Byte> -> Option<string>): Result<string, ExpandError> {
    if tokens == [] then Ok("")
    else Then(Substitute(tokens[0], lookup), Meaning(tokens[1..], lookup))
  }

  /** Concatenation, unless something failed; the first failure counts. */
  function Then(a: Result<string, ExpandError>, b: Result<string, ExpandError>): Result<string, ExpandError> {
    if a.Err? then a else if b.Err? then b else Ok(a.value + b.value)
  }

  function Expand(v: seq<Byte>, lookup: seq<Byte> -> Option<string>): Result<string, ExpandError> {
    if v == [] then Ok("")
    else
      var t := Head(v);
      if t.None? then Err(Unterminated)
      else Then(Substitute(t.value, lookup), Expand(v[|Spelled(t.value)|..], lookup))
  }

  // ---------------------------------------------------------------------
  // The scanner reads the grammar, unambiguously
  // ---------------------------------------------------------------------

  lemma {:induction false} SpanHolds(v: seq<Byte>)
    ensures forall i :: 0 <= i < Span(v) ==> IsVarContinue(v[i])
    ensures Span(v) < |v| ==> !IsVarContinue(v[Span(v)])
  {
    if v != [] && IsVarContinue(v[0]) {
      SpanHolds(v[1..]);
      assert forall i :: 1 <= i < Span(v) ==> v[i] == v[1..][i - 1];
    }
  }

  lemma {:induction false} FindCloseHolds(v: seq<Byte>)
    requires FindClose(v).Some?
    ensures var k := FindClose(v).value; v[k] == CLOSE && CLOSE !in v[..k]
  {
    if v[0] != CLOSE {
      FindCloseHolds(v[1..]);
      var k := FindClose(v).value;
      assert v[..k] == [v[0]] + v[1..][..k - 1];
    }
  }

  lemma {:induction false} SpanIs(name: seq<Byte>, rest: seq<Byte>)
    requires forall i :: 0 <= i < |name| ==> IsVarContinue(name[i])
    requires rest == [] || !IsVarContinue(rest[0])
    ensures Span(name + rest) == |name|
  {
    if name == [] {
      assert name + rest == rest;
    } else {
      SpanIs(name[1..], rest);
      assert (name + rest)[1..] == name[1..] + rest;
    }
  }

  lemma {:induction false} FindCloseIs(name: seq<Byte>, rest: seq<Byte>)
    requires CLOSE !in name
    ensures FindClose(name + [CLOSE] + rest) == Some(|name|)
  {
    if name == [] {
      assert (name + [CLOSE] + rest)[0] == CLOSE;
    } else {
      FindCloseIs(name[1..], rest);
      assert (name + [CLOSE] + rest)[1..] == name[1..] + [CLOSE] + rest;
    }
  }

  lemma HeadIsBraced(name: seq<Byte>, rest: seq<Byte>)
    requires CLOSE !in name
    ensures Head([DOLLAR, OPEN] + name + [CLOSE] + rest) == Some(Braced(name))
  {
    var v := [DOLLAR, OPEN] + name + [CLOSE] + rest;
    FindCloseIs(name, rest);
    assert v[2..] == name + [CLOSE] + rest && v[2..][..|name|] == name;
  }

  lemma HeadIsBare(name: seq<Byte>, rest: seq<Byte>)
    requires WellFormed(Bare(name)) && EndsBefore(Bare(name), rest)
    ensures Head([DOLLAR] + name + rest) == Some(Bare(name))
  {
    var v := [DOLLAR] + name + rest;
    SpanIs(name, rest);
    assert v[1..] == name + rest && v[1..][..|name|] == name && v[1] == name[0];
  }

  /** `t` is the only way to start reading its text followed by `rest`. */
  lemma HeadIs(t: Token, rest: seq<Byte>)
    requires WellFormed(t) && EndsBefore(t, rest)
    ensures Head(Spelled(t) + rest) == Some(t)
  {
    match t
    case Braced(name) => HeadIsBraced(name, rest);
    case Bare(name) => HeadIsBare(name, rest);
    case _ =>
  }

  lemma BareHeadIsReading(v: seq<Byte>)
    requires v != [] && Head(v).Some? && Head(v).value.Bare?
    ensures var t, n := Head(v).value, |Spelled(Head(v).value)|;
            WellFormed(t) && v[..n] == Spelled(t) && EndsBefore(t, v[n..])
  {
    var t, w := Head(v).value, v[1..];
    SpanHolds(w);
    assert t.name == w[..Span(w)];
    Sliced(v, w, Span(w));
  }

  lemma Sliced(v: seq<Byte>, w: seq<Byte>, k: nat)
    requires v != [] && w == v[1..] && k <= |w|
    ensures v[..k + 1] == [v[0]] + w[..k] && v[k + 1..] == w[k..]
  {
  }

  lemma BracedHeadIsReading(v: seq<Byte>)
    requires v != [] && Head(v).Some? && Head(v).value.Braced?
    ensures var t, n := Head(v).value, |Spelled(Head(v).value)|;
            WellFormed(t) && v[..n] == Spelled(t) && EndsBefore(t, v[n..])
  {
    var t, w := Head(v).value, v[2..];
    var k := FindClose(w).value;
    FindCloseHolds(w);
    assert t.name == w[..k];
    assert v[..k + 3] == [v[0], v[1]] + w[..k] + [w[k]];
  }

  lemma HeadIsReading(v: seq<Byte>)
    requires v != [] && Head(v).Some?
    ensures var t, n := Head(v).value, |Spelled(Head(v).value)|;
            WellFormed(t) && v[..n] == Spelled(t) && EndsBefore(t, v[n..])
  {
    match Head(v).value
    case Bare(_) => BareHeadIsReading(v);
    case Braced(_) => BracedHeadIsReading(v);
    case _ =>
  }

  lemma ScanOnce(v: seq<Byte>, t: Token, rest: seq<Byte>)
    requires v != [] && Head(v) == Some(t) && v[|Spelled(t)|..] == rest
    ensures Scan(v) == if Scan(rest).None? then None else Some([t] + Scan(rest).value)
  {
  }

  lemma {:induction false} ReadingIsScanned(tokens: seq<Token>, v: seq<Byte>)
    requires IsReading(tokens, v)
    ensures Scan(v) == Some(tokens)
  {
    if tokens != [] {
      var t, rest := tokens[0], v[|Spelled(tokens[0])|..];
      assert v == Spelled(t) + rest;
      HeadIs(t, rest);
      ReadingIsScanned(tokens[1..], rest);
      ScanOnce(v, t, rest);
      assert tokens == [t] + tokens[1..];
    }
  }

  lemma {:induction false} ScannedIsReading(v: seq<Byte>)
    requires Scan(v).Some?
    ensures IsReading(Scan(v).value, v)
    decreases |v|
  {
    if v != [] {
      var t := Head(v).value;
      HeadIsReading(v);
      ScannedIsReading(v[|Spelled(t)|..]);
      assert Scan(v).value[1..] == Scan(v[|Spelled(t)|..]).value;
    }
  }

  /** The scanner finds a reading exactly when there is one, and there is at most one. */
  lemma ReadingIffScanned(tokens: seq<Token>, v: seq<Byte>)
    ensures IsReading(tokens, v) <==> Scan(v) == Some(tokens)
  {
    if IsReading(tokens, v) {
      ReadingIsScanned(tokens, v);
    }
    if Scan(v) == Some(tokens) {
      ScannedIsReading(v);
    }
  }

  lemma {:induction false} ScanExpands(v: seq<Byte>, lookup: seq<Byte> -> Option<string>)
    ensures Scan(v).Some? ==> Expand(v, lookup) == Meaning(Scan(v).value, lookup)
    ensures Scan(v).None? ==> Expand(v, lookup).Err?
    decreases |v|
  {
    if v != [] && Head(v).Some? {
      var t, rest := Head(v).value, v[|Spelled(Head(v).value)|..];
      ScanExpands(rest, lookup);
      if Scan(rest).Some? {
        assert ([t] + Scan(rest).value)[1..] == Scan(rest).value;
      }
    }
  }

  /** Expansion succeeds exactly when the value can be read and every reference in it
      is named and set; then it is the meaning of that reading. */
  lemma ExpandIsMeaning(v: seq<Byte>, lookup: seq<Byte> -> Option<string>)
    ensures Expand(v, lookup).Ok? <==>
            exists tokens :: IsReading(tokens, v) && forall i :: 0 <= i < |tokens| ==> Substitute(tokens[i], lookup).Ok?
    ensures forall tokens :: IsReading(tokens, v) ==> Expand(v, lookup) == Meaning(tokens, lookup)
  {
    ScanExpands(v, lookup);
    forall tokens | IsReading(tokens, v)
      ensures Expand(v, lookup) == Meaning(tokens, lookup)
      ensures Expand(v, lookup).Ok? <==> forall i :: 0 <= i < |tokens| ==> Substitute(tokens[i], lookup).Ok?
    {
      ReadingIffScanned(tokens, v);
      MeaningOkIff(tokens, lookup);
    }
    if Expand(v, lookup).Ok? {
      ReadingIffScanned(Scan(v).value, v);
    }
  }

  lemma {:induction false} MeaningOkIff(tokens: seq<Token>, lookup: seq<Byte> -> Option<string>)
    ensures Meaning(tokens, lookup).Ok? <==> forall i :: 0 <= i < |tokens| ==> Substitute(tokens[i], lookup).Ok?
  {
    if tokens != [] {
      MeaningOkIff(tokens[1..], lookup);
      assert forall i :: 1 <= i < |tokens| ==> tokens[i] == tokens[1..][i - 1];
    }
  }

  // ---------------------------------------------------------------------
  // The program
  // ---------------------------------------------------------------------

  // The token at a position of the value, in terms of the whole value.

  lemma SimpleAt(v: seq<Byte>, i: nat)
    requires i < |v|
    ensures v[i] != DOLLAR ==> Head(v[i..]) == Some(Literal(v[i]))
    ensures v[i] == DOLLAR && i + 1 < |v| && v[i + 1] == DOLLAR ==> Head(v[i..]) == Some(Escape)
    ensures v[i] == DOLLAR && (i + 1 == |v| || (v[i + 1] != DOLLAR && v[i + 1] != OPEN && !IsVarStart(v[i + 1]))) ==>
              Head(v[i..]) == Some(LoneDollar)
  {
    if i + 1 < |v| {
      assert v[i..][1] == v[i + 1];
    }
  }

  lemma BracedAt(v: seq<Byte>, i: nat)
    requires i + 1 < |v| && v[i] == DOLLAR && v[i + 1] == OPEN
    ensures Head(v[i..]) == BracedHead(v[i + 2..])
  {
    assert v[i..][1] == v[i + 1] && v[i..][2..] == v[i + 2..];
  }

  lemma BareAt(v: seq<Byte>, i: nat)
    requires i + 1 < |v| && v[i] == DOLLAR && IsVarStart(v[i + 1])
    ensures Head(v[i..]) == Some(Bare(v[i + 1..][..Span(v[i + 1..])]))
  {
    assert v[i..][1] == v[i + 1] && v[i..][1..] == v[i + 1..];
  }

  lemma Middle(v: seq<Byte>, from: nat, k: nat)
    requires from + k <= |v|
    ensures v[from..][..k] == v[from..from + k]
  {
  }

  /** What the first token stands for, and how long it is. */
  function Step(w: seq<Byte>, lookup: seq<Byte> -> Option<string>): Result<(string, nat), ExpandError>
    requires w != []
  {
    var t := Head(w);
    if t.None? then Err(Unterminated)
    else
      var s := Substitute(t.value, lookup);
      if s.Err? then Err(s.error) else Ok((s.value, |Spelled(t.value)|))
  }

  /** What is left to expand after the first `i` bytes became `out`. */
  ghost predicate Expanded(v: seq<Byte>, lookup: seq<Byte> -> Option<string>, i: nat, out: string)
    requires i <= |v|
  {
    Expand(v, lookup) == Then(Ok(out), Expand(v[i..], lookup))
  }

  lemma Joined(a: string, b: string, r: Result<string, ExpandError>)
    ensures Then(Ok(a), Then(Ok(b), r)) == Then(Ok(a + b), r)
  {
    if r.Ok? {
      assert a + (b + r.value) == (a + b) + r.value;
    }
  }

  lemma NothingJoined(r: Result<string, ExpandError>)
    ensures Then(Ok(""), r) == r && Then(r, Ok("")) == r
  {
    if r.Ok? {
      assert "" + r.value == r.value == r.value + "";
    }
  }

  lemma Unfolded(w: seq<Byte>, lookup: seq<Byte> -> Option<string>)
    requires w != []
    ensures var r := Step(w, lookup);
            if r.Err? then Expand(w, lookup) == Err(r.error)
            else 0 < r.value.1 <= |w| && Expand(w, lookup) == Then(Ok(r.value.0), Expand(w[r.value.1..], lookup))
  {
  }

  lemma Advance(v: seq<Byte>, lookup: seq<Byte> -> Option<string>, i: nat, out: string,
                r: Result<(string, nat), ExpandError>)
    requires i < |v| && Expanded(v, lookup, i, out) && r == Step(v[i..], lookup)
    ensures if r.Err? then Expand(v, lookup) == Err(r.error)
            else 0 < r.value.1 <= |v| - i && Expanded(v, lookup, i + r.value.1, out + r.value.0)
  {
    Unfolded(v[i..], lookup);
    if r.Ok? {
      var rest := v[i + r.value.1..];
      assert v[i..][r.value.1..] == rest;
      Joined(out, r.value.0, Expand(rest, lookup));
    }
  }

  lemma Begins(v: seq<Byte>, lookup: seq<Byte> -> Option<string>)
    ensures Expanded(v, lookup, 0, "")
  {
    assert v[0..] == v;
    NothingJoined(Expand(v, lookup));
  }

  lemma Ends(v: seq<Byte>, lookup: seq<Byte> -> Option<string>, out: string)
    requires Expanded(v, lookup, |v|, out)
    ensures Expand(v, lookup) == Ok(out)
  {
    assert v[|v|..] == [];
    NothingJoined(Ok(out));
  }

  method ExpandBraced(v: seq<Byte>, i: nat, lookup: seq<Byte> -> Option<string>)
    returns (r: Result<(string, nat), ExpandError>)
    requires i + 1 < |v| && v[i] == DOLLAR && v[i + 1] == OPEN
    ensures r == Step(v[i..], lookup)
  {
    BracedAt(v, i);
    var end := FindClose(v[i + 2..]);
    if end.None? {
      return Err(Unterminated);
    }
    var name := v[i + 2..i + 2 + end.value];
    Middle(v, i + 2, end.value);
    if name == [] {
      return Err(EmptyName);
    }
    var resolved := lookup(name);
    if resolved.None? {
      return Err(Unset(name));
    }
    return Ok((resolved.value, 2 + end.value + 1));
  }

  method ExpandBare(v: seq<Byte>, i: nat, lookup: seq<Byte> -> Option<string>)
    returns (r: Result<(string, nat), ExpandError>)
    requires i + 1 < |v| && v[i] == DOLLAR && IsVarStart(v[i + 1])
    ensures r == Step(v[i..], lookup)
  {
    BareAt(v, i);
    var j := ScanName(v, i + 1);
    var name := v[i + 1..j];
    Middle(v, i + 1, j - (i + 1));
    var resolved := lookup(name);
    if resolved.None? {
      return Err(Unset(name));
    }
    return Ok((resolved.value, j - i));
  }

  /** One turn of the scan: the text for the token at `i`, and the token's length. */
  method ExpandAt(v: seq<Byte>, i: nat, lookup: seq<Byte> -> Option<string>)
    returns (r: Result<(string, nat), ExpandError>)
    requires i < |v|
    ensures r == Step(v[i..], lookup)
  {
    SimpleAt(v, i);
    if v[i] != DOLLAR {
      r := Ok(([v[i] as char], 1));
    } else if i + 1 < |v| && v[i + 1] == DOLLAR {
      r := Ok(("$", 2));
    } else if i + 1 < |v| && v[i + 1] == OPEN {
      r := ExpandBraced(v, i, lookup);
    } else if i + 1 < |v| && IsVarStart(v[i + 1]) {
      r := ExpandBare(v, i, lookup);
    } else {
      r := Ok(("$", 1));
    }
  }

  method Turn(v: seq<Byte>, i: nat, lookup: seq<Byte> -> Option<string>, ghost out: string)
    returns (r: Result<(string, nat), ExpandError>)
    requires i < |v| && Expanded(v, lookup, i, out)
    ensures r.Err? ==> Expand(v, lookup) == Err(r.error)
    ensures r.Ok? ==> 0 < r.value.1 <= |v| - i && Expanded(v, lookup, i + r.value.1, out + r.value.0)
  {
    r := ExpandAt(v, i, lookup);
    Advance(v, lookup, i, out, r);
  }

  method ExpandVars(v: seq<Byte>, lookup: seq<Byte> -> Option<string>) returns (r: Result<string, ExpandError>)
    ensures r == Expand(v, lookup)
  {
    var out := "";
    var i := 0;
    Begins(v, lookup);
    while i < |v|
      invariant 0 <= i <= |v| && Expanded(v, lookup, i, out)
      decreases |v| - i
    {
      var step := Turn(v, i, lookup, out);
      if step.Err? {
        return Err(step.error);
      }
      out := out + step.value.0;
      i := i + step.value.1;
    }
    Ends(v, lookup, out);
    return Ok(out);
  }

  method ScanName(v: seq<Byte>, from: nat) returns (j: nat)
    requires from <= |v|
    ensures from <= j <= |v| && j == from + Span(v[from..])
  {
    j := from;
    while j < |v| && IsVarContinue(v[j])
      invariant from <= j <= |v| && Span(v[from..]) == (j - from) + Span(v[j..])
    {
      assert v[j..][1..] == v[j + 1..];
      j := j + 1;
    }
  }

  // ---------------------------------------------------------------------
  // Each spelling on its own
  // ---------------------------------------------------------------------

  /** `r` is `text` followed by what the rest expands to, or the error of the rest. */
  ghost predicate Prefixes(text: string, rest: Result<string, ExpandError>, r: Result<string, ExpandError>) {
    if rest.Ok? then r == Ok(text + rest.value) else r == rest
  }

  /** A name begins with a letter or an underscore, and goes on with these and digits. */
  ghost predicate IsName(name: seq<Byte>) {
    && name != [] && Letter(name[0])
    && forall i :: 0 <= i < |name| ==> Letter(name[i]) || '0' as int <= name[i] <= '9' as int
  }

  ghost predicate Letter(b: Byte) {
    'a' as int <= b <= 'z' as int || 'A' as int <= b <= 'Z' as int || b == '_' as int
  }

  /** `$NAME` stands for the value of the longest name that follows the dollar sign. */
  lemma BareExpands(name: seq<Byte>, rest: seq<Byte>, lookup: seq<Byte> -> Option<string>)
    requires IsName(name)
    requires rest != [] ==> !Letter(rest[0]) && !('0' as int <= rest[0] <= '9' as int)
    ensures var r := Expand(['$' as int] + name + rest, lookup);
            match lookup(name)
            case None => r == Err(Unset(name))
            case Some(value) => Prefixes(value, Expand(rest, lookup), r)
  {
    TokenExpands(Bare(name), rest, lookup);
  }

  /** `${NAME}` stands for the value of any name without a closing brace, but not of none. */
  lemma BracedExpands(name: seq<Byte>, rest: seq<Byte>, lookup: seq<Byte> -> Option<string>)
    requires '}' as int !in name
    ensures var r := Expand(['$' as int, '{' as int] + name + ['}' as int] + rest, lookup);
            if name == [] then r == Err(EmptyName)
            else
              match lookup(name)
              case None => r == Err(Unset(name))
              case Some(value) => Prefixes(value, Expand(rest, lookup), r)
  {
    TokenExpands(Braced(name), rest, lookup);
  }

  lemma OpenBraceFails(w: seq<Byte>, lookup: seq<Byte> -> Option<string>)
    requires '}' as int !in w
    ensures Expand(['$' as int, '{' as int] + w, lookup) == Err(Unterminated)
  {
    NoClose(w);
    assert (['$' as int, '{' as int] + w)[2..] == w;
  }

  lemma {:induction false} NoClose(w: seq<Byte>)
    requires CLOSE !in w
    ensures FindClose(w).None?
  {
    if w != [] {
      NoClose(w[1..]);
    }
  }

  /** Everything else stands for itself, but two dollar signs for one. */
  lemma OtherExpands(b: Byte, rest: seq<Byte>, lookup: seq<Byte> -> Option<string>)
    ensures b != '$' as int ==> Prefixes([b as char], Expand(rest, lookup), Expand([b] + rest, lookup))
    ensures Prefixes("$", Expand(rest, lookup), Expand(['$' as int, '$' as int] + rest, lookup))
    ensures rest == [] || (!Letter(rest[0]) && rest[0] != '$' as int && rest[0] != '{' as int) ==>
              Prefixes("$", Expand(rest, lookup), Expand(['$' as int] + rest, lookup))
  {
    if b != DOLLAR {
      LiteralExpands(b, rest, lookup);
    }
    EscapeExpands(rest, lookup);
    if rest == [] || (!Letter(rest[0]) && rest[0] != DOLLAR && rest[0] != OPEN) {
      TokenExpands(LoneDollar, rest, lookup);
    }
  }

  lemma TokenExpands(t: Token, rest: seq<Byte>, lookup: seq<Byte> -> Option<string>)
    requires WellFormed(t) && EndsBefore(t, rest)
    ensures Expand(Spelled(t) + rest, lookup) == Then(Substitute(t, lookup), Expand(rest, lookup))
  {
    HeadIs(t, rest);
    assert (Spelled(t) + rest)[|Spelled(t)|..] == rest;
  }

  // ---------------------------------------------------------------------
  // Escaping
  // ---------------------------------------------------------------------

  /** Every dollar sign doubled. */
  function Doubled(s: string): string {
    if s == "" then "" else (if s[0] == '$' then "$$" else [s[0]]) + Doubled(s[1..])
  }

  predicate Ascii(s: string) {
    forall i :: 0 <= i < |s| ==> s[i] as int < 0x80
  }

  /** The characters of the same numbers as some bytes. */
  function Latin1(v: seq<Byte>): (s: string)
    ensures |s| == |v|
  {
    seq(|v|, i requires 0 <= i < |v| => v[i] as char)
  }

  lemma LiteralExpands(b: Byte, rest: seq<Byte>, lookup: seq<Byte> -> Option<string>)
    requires b != DOLLAR
    ensures Expand([b] + rest, lookup) == Then(Ok([b as char]), Expand(rest, lookup))
  {
    assert ([b] + rest)[1..] == rest;
  }

  lemma EscapeExpands(rest: seq<Byte>, lookup: seq<Byte> -> Option<string>)
    ensures Expand([DOLLAR, DOLLAR] + rest, lookup) == Then(Ok("$"), Expand(rest, lookup))
  {
    assert ([DOLLAR, DOLLAR] + rest)[2..] == rest;
  }

  lemma OneMoreLiteral(b: Byte, w: seq<Byte>, rest: seq<Byte>, lookup: seq<Byte> -> Option<string>)
    requires b != DOLLAR && Expand(w + rest, lookup) == Then(Ok(Latin1(w)), Expand(rest, lookup))
    ensures Expand([b] + w + rest, lookup) == Then(Ok(Latin1([b] + w)), Expand(rest, lookup))
  {
    LiteralExpands(b, w + rest, lookup);
    assert [b] + w + rest == [b] + (w + rest);
    Joined([b as char], Latin1(w), Expand(rest, lookup));
    assert Latin1([b] + w) == [b as char] + Latin1(w);
  }

  lemma {:induction false} LiteralsExpand(v: seq<Byte>, rest: seq<Byte>, lookup: seq<Byte> -> Option<string>)
    requires DOLLAR !in v
    ensures Expand(v + rest, lookup) == Then(Ok(Latin1(v)), Expand(rest, lookup))
  {
    if v == [] {
      assert v + rest == rest && Latin1(v) == "";
      NothingJoined(Expand(rest, lookup));
    } else {
      LiteralsExpand(v[1..], rest, lookup);
      OneMoreLiteral(v[0], v[1..], rest, lookup);
      assert v == [v[0]] + v[1..];
    }
  }

  /** Whatever is set, a value with all dollar signs doubled expands to its own
      bytes, each as one character. */
  lemma {:induction false} DoubledExpands(s: string, lookup: seq<Byte> -> Option<string>)
    ensures Expand(Utf8(Doubled(s)), lookup) == Ok(Latin1(Utf8(s)))
  {
    if s != "" {
      var first, rest := if s[0] == '$' then "$$" else [s[0]], Doubled(s[1..]);
      DoubledExpands(s[1..], lookup);
      Utf8Joined(first, rest);
      if s[0] == '$' {
        DollarsEncoded();
        EscapeExpands(Utf8(rest), lookup);
      } else {
        SingleEncoded(s[0]);
        LiteralsExpand(Encoded(s[0]), Utf8(rest), lookup);
      }
      Latin1Joined(Encoded(s[0]), Utf8(s[1..]));
    } else {
      assert Latin1([]) == "";
    }
  }

  lemma DollarsEncoded()
    ensures Utf8("$$") == [DOLLAR, DOLLAR] && Encoded('$') == [DOLLAR] && Latin1([DOLLAR]) == "$"
  {
    assert "$$"[1..] == "$" && "$"[1..] == "";
  }

  lemma SingleEncoded(c: char)
    requires c != '$'
    ensures Utf8([c]) == Encoded(c) && DOLLAR !in Encoded(c)
  {
    assert [c][1..] == "";
  }

  lemma Latin1Joined(a: seq<Byte>, b: seq<Byte>)
    ensures Latin1(a + b) == Latin1(a) + Latin1(b)
  {
  }

  lemma {:induction false} Latin1IsIdentityIffAscii(s: string)
    ensures |Utf8(s)| >= |s| && (|Utf8(s)| == |s| <==> Ascii(s))
    ensures Latin1(Utf8(s)) == s <==> Ascii(s)
  {
    if s == "" {
      assert Latin1(Utf8(s)) == s;
    } else {
      Latin1IsIdentityIffAscii(s[1..]);
      assert Ascii(s) <==> s[0] as int < 0x80 && Ascii(s[1..]);
      Latin1Joined(Encoded(s[0]), Utf8(s[1..]));
      if Ascii(s) {
        assert Latin1(Encoded(s[0])) == [s[0]];
        assert s == [s[0]] + s[1..];
      }
    }
  }

  /** Doubling the dollar signs protects a value from expansion exactly when it is
      plain ASCII: any other character comes back as several. */
  lemma EscapingIsExactIffAscii(s: string, lookup: seq<Byte> -> Option<string>)
    ensures Expand(Utf8(Doubled(s)), lookup) == Ok(s) <==> Ascii(s)
  {
    DoubledExpands(s, lookup);
    Latin1IsIdentityIffAscii(s);
  }
}
