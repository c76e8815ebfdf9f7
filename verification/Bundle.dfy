/** Service bundles (src/bundle.rs): framing, checks, and conversion from managed
    processes to start specifications. Serialisation, compression and hashing are
    parameters. */
module Bundle {
  import opened Prelude
  import opened Domain
  import Text
  import opened Lifecycle

  const MAGIC: seq<Byte> := [0x4F, 0x58, 0x42, 0x55, 0x4E, 0x44, 0x4C, 0x45]
  const FORMAT_VERSION: Byte := 1
  const HEADER_LEN: nat := 49
  const HASH_LEN: nat := 32
  const MAX_BUNDLE_BYTES: nat := 8 * 1024 * 1024
  const MAX_JSON_BYTES: nat := 2 * 1024 * 1024
  const CHUNK_BYTES: nat := 8192
  const MAX_SERVICE_COUNT: nat := 512
  const MAX_ENV_VARS: nat := 256
  const MAX_NAME_LEN: nat := 128
  const MAX_PROGRAM_LEN: nat := 2048
  const MAX_ARG_LEN: nat := 4096
  const MAX_COMMAND_PARTS: nat := 256
  const MAX_ENV_KEY_LEN: nat := 128
  const MAX_ENV_VALUE_LEN: nat := 4096
  const MAX_STOP_TIMEOUT_SECS: nat := 24 * 60 * 60
  const MAX_DELAY_SECS: nat := 24 * 60 * 60
  const KIND: string := "oxmgr_bundle"

  /** One exported service; its program and arguments are those of `config`. */
  datatype Service = Service(name: string, config: Config, stdoutLog: Option<string>, stderrLog: Option<string>)

  datatype Payload = Payload(kind: string, version: nat, createdAt: nat, services: seq<Service>)

  /** A start specification: one command line instead of program and arguments, which
      are left empty in `config`. */
  datatype StartSpec = StartSpec(
    commandLine: string,
    name: string,
    config: Config,
    stdoutLog: Option<string>,
    stderrLog: Option<string>)

  /** The libraries the format is built from. */
  datatype Codec = Codec(
    serialize: Payload -> seq<Byte>,
    parse: seq<Byte> -> Option<Payload>,
    compress: seq<Byte> -> seq<Byte>,
    decompress: seq<Byte> -> Option<seq<Byte>>,
    digest: seq<Byte> -> seq<Byte>,
    quote: (string, seq<string>) -> string)

  ghost predicate Faithful(c: Codec) {
    && (forall p :: c.parse(c.serialize(p)) == Some(p))
    && (forall b :: c.decompress(c.compress(b)) == Some(b))
    && (forall b :: |c.digest(b)| == HASH_LEN)
  }

  // ---------------------------------------------------------------------
  // Services
  // ---------------------------------------------------------------------

  function FromManaged(p: Proc): Service {
    Service(p.name,
            p.config.(stopTimeoutSecs := AtLeastOne(p.config.stopTimeoutSecs),
                      clusterInstances := AtLeastOneOf(p.config.clusterInstances)),
            None, None)
  }

  function AtLeastOneOf(o: Option<nat>): Option<nat> {
    if o.Some? then Some(AtLeastOne(o.value)) else None
  }

  function IntoStartSpec(s: Service, quote: (string, seq<string>) -> string): StartSpec {
    StartSpec(quote(s.config.command, s.config.args), s.name,
              s.config.(command := "", args := [],
                        stopTimeoutSecs := AtLeastOne(s.config.stopTimeoutSecs),
                        clusterInstances := if s.config.clusterMode then AtLeastOneOf(s.config.clusterInstances) else None,
                        readyTimeoutSecs := AtLeastOne(s.config.readyTimeoutSecs)),
              s.stdoutLog, s.stderrLog)
  }

  function ByteLen(s: string): nat {
    |Text.Utf8(s)|
  }

  /** The white space of Unicode. */
  predicate IsSpace(c: char) {
    var n := c as int;
    0x09 <= n <= 0x0D || n in {0x20, 0x85, 0xA0, 0x1680, 0x2028, 0x2029, 0x202F, 0x205F, 0x3000} || 0x2000 <= n <= 0x200A
  }

  predicate IsBlank(s: string) {
    forall i :: 0 <= i < |s| ==> IsSpace(s[i])
  }

  predicate IsLetter(c: char) {
    'a' <= c <= 'z' || 'A' <= c <= 'Z'
  }

  predicate SafeEnvKey(key: string) {
    && key != "" && (IsLetter(key[0]) || key[0] == '_')
    && forall i :: 0 <= i < |key| ==> IsLetter(key[i]) || Text.IsDigit(key[i]) || key[i] == '_'
  }

  predicate IsHexDigit(c: char) {
    Text.IsDigit(c) || 'a' <= c <= 'f' || 'A' <= c <= 'F'
  }

  predicate ValidCommand(name: string, c: Config) {
    && !IsBlank(name) && ByteLen(name) <= MAX_NAME_LEN
    && !IsBlank(c.command) && ByteLen(c.command) <= MAX_PROGRAM_LEN
    && |c.args| <= MAX_COMMAND_PARTS && (forall i :: 0 <= i < |c.args| ==> ByteLen(c.args[i]) <= MAX_ARG_LEN)
  }

  predicate ValidTimes(c: Config) {
    && 0 < c.stopTimeoutSecs <= MAX_STOP_TIMEOUT_SECS
    && c.restartDelaySecs <= MAX_DELAY_SECS && c.startDelaySecs <= MAX_DELAY_SECS
  }

  predicate ValidEnv(env: map<string, string>) {
    && |env| <= MAX_ENV_VARS
    && forall k :: k in env ==>
                     k != "" && ByteLen(k) <= MAX_ENV_KEY_LEN && SafeEnvKey(k) && ByteLen(env[k]) <= MAX_ENV_VALUE_LEN
  }

  predicate ValidExtras(c: Config) {
    && (c.healthCheck.Some? ==>
          var h := c.healthCheck.value;
          && !IsBlank(h.command) && ByteLen(h.command) <= MAX_PROGRAM_LEN
          && h.intervalSecs != 0 && h.timeoutSecs != 0 && h.maxFailures != 0)
    && (c.preReloadCmd.Some? ==> !IsBlank(c.preReloadCmd.value) && ByteLen(c.preReloadCmd.value) <= MAX_PROGRAM_LEN)
    && (c.clusterInstances.Some? ==> c.clusterMode && c.clusterInstances.value != 0)
    && (c.pullSecretHash.Some? ==>
          |c.pullSecretHash.value| == 64
          && forall i :: 0 <= i < 64 ==> IsHexDigit(c.pullSecretHash.value[i]))
  }

  predicate ValidService(s: Service) {
    ValidCommand(s.name, s.config) && ValidTimes(s.config) && ValidEnv(s.config.env) && ValidExtras(s.config)
  }

  /** Nothing is left after trimming white space. */
  method TrimsToNothing(s: string) returns (ok: bool)
    ensures ok <==> IsBlank(s)
  {
    for i := 0 to |s|
      invariant forall j :: 0 <= j < i ==> IsSpace(s[j])
    {
      if !IsSpace(s[i]) {
        return false;
      }
    }
    return true;
  }

  method IsSafeEnvKey(key: string) returns (ok: bool)
    ensures ok <==> SafeEnvKey(key)
  {
    if |key| == 0 || !('a' <= key[0] <= 'z' || 'A' <= key[0] <= 'Z' || key[0] == '_') {
      return false;
    }
    for i := 1 to |key|
      invariant forall j :: 0 <= j < i ==> IsLetter(key[j]) || Text.IsDigit(key[j]) || key[j] == '_'
    {
      var c := key[i];
      if !('a' <= c <= 'z' || 'A' <= c <= 'Z' || '0' <= c <= '9' || c == '_') {
        return false;
      }
    }
    return true;
  }

  method ValidateArgs(args: seq<string>) returns (ok: bool)
    ensures ok <==> |args| <= MAX_COMMAND_PARTS && forall i :: 0 <= i < |args| ==> ByteLen(args[i]) <= MAX_ARG_LEN
  {
    if |args| > 256 {
      return false;
    }
    for i := 0 to |args|
      invariant forall j :: 0 <= j < i ==> ByteLen(args[j]) <= MAX_ARG_LEN
    {
      if ByteLen(args[i]) > 4096 {
        return false;
      }
    }
    return true;
  }

  /** The variables in whatever order they are enumerated. */
  method ValidateEnv(env: map<string, string>) returns (ok: bool)
    ensures ok <==> ValidEnv(env)
  {
    if |env| > 256 {
      return false;
    }
    var rest := env.Keys;
    while rest != {}
      invariant rest <= env.Keys
      invariant forall k :: k in env && k !in rest ==>
                              && k != "" && ByteLen(k) <= MAX_ENV_KEY_LEN && SafeEnvKey(k)
                              && ByteLen(env[k]) <= MAX_ENV_VALUE_LEN
      decreases |rest|
    {
      var key :| key in rest;
      var safe := IsSafeEnvKey(key);
      if key == "" || ByteLen(key) > 128 || !safe {
        return false;
      }
      if ByteLen(env[key]) > 4096 {
        return false;
      }
      rest := rest - {key};
    }
    return true;
  }

  method ValidateCommand(name: string, c: Config) returns (ok: bool)
    ensures ok <==> ValidCommand(name, c)
  {
    var nameless := TrimsToNothing(name);
    if nameless || ByteLen(name) > 128 {
      return false;
    }
    var empty := TrimsToNothing(c.command);
    if empty || ByteLen(c.command) > 2048 {
      return false;
    }
    ok := ValidateArgs(c.args);
  }

  method ValidateExtras(c: Config) returns (ok: bool)
    ensures ok <==> ValidExtras(c)
  {
    if c.healthCheck.Some? {
      var h := c.healthCheck.value;
      var empty := TrimsToNothing(h.command);
      if empty || ByteLen(h.command) > 2048 {
        return false;
      }
      if h.intervalSecs == 0 || h.timeoutSecs == 0 || h.maxFailures == 0 {
        return false;
      }
    }
    if c.preReloadCmd.Some? {
      var empty := TrimsToNothing(c.preReloadCmd.value);
      if empty || ByteLen(c.preReloadCmd.value) > 2048 {
        return false;
      }
    }
    if !c.clusterMode && c.clusterInstances.Some? {
      return false;
    }
    if c.clusterInstances == Some(0) {
      return false;
    }
    if c.pullSecretHash.Some? {
      ok := IsSecretHash(c.pullSecretHash.value);
    } else {
      ok := true;
    }
  }

  method IsSecretHash(hash: string) returns (ok: bool)
    ensures ok <==> |hash| == 64 && forall i :: 0 <= i < 64 ==> IsHexDigit(hash[i])
  {
    if |hash| != 64 {
      return false;
    }
    for i := 0 to 64
      invariant forall j :: 0 <= j < i ==> IsHexDigit(hash[j])
    {
      var c := hash[i];
      if !('0' <= c <= '9' || 'a' <= c <= 'f' || 'A' <= c <= 'F') {
        return false;
      }
    }
    return true;
  }

  /** One check after the other. */
  method ValidateService(s: Service) returns (ok: bool)
    ensures ok <==> ValidService(s)
  {
    ok := ValidateCommand(s.name, s.config);
    if !ok {
      return;
    }
    var c := s.config;
    if c.stopTimeoutSecs == 0 || c.stopTimeoutSecs > 86400 || c.restartDelaySecs > 86400 || c.startDelaySecs > 86400 {
      return false;
    }
    ok := ValidateEnv(c.env);
    if ok {
      ok := ValidateExtras(c);
    }
  }

  // ---------------------------------------------------------------------
  // The frame
  // ---------------------------------------------------------------------

  /** Four bytes, the least significant first. */
  function Le32(n: nat): (b: seq<Byte>)
    requires n <= U32_MAX
    ensures |b| == 4
  {
    [n % 0x100, n / 0x100 % 0x100, n / 0x1_0000 % 0x100, n / 0x100_0000]
  }

  function FromLe32(b: seq<Byte>): (n: nat)
    requires |b| == 4
    ensures n <= U32_MAX
  {
    b[0] as nat + 0x100 * (b[1] as nat) + 0x1_0000 * (b[2] as nat) + 0x100_0000 * (b[3] as nat)
  }

  lemma Le32RoundTrip(n: nat)
    requires n <= U32_MAX
    ensures FromLe32(Le32(n)) == n
  {
    var q := n / 0x100;
    var r := q / 0x100;
    assert n / 0x1_0000 == r && n / 0x100_0000 == r / 0x100;
    assert n == n % 0x100 + 0x100 * q && q == q % 0x100 + 0x100 * r && r == r % 0x100 + 0x100 * (r / 0x100);
  }

  lemma Le32Injective(b: seq<Byte>)
    requires |b| == 4
    ensures Le32(FromLe32(b)) == b
  {
    var n, b1, b2, b3 := FromLe32(b), b[1] as nat, b[2] as nat, b[3] as nat;
    assert n / 0x100 == b1 + 0x100 * b2 + 0x1_0000 * b3;
    assert n / 0x1_0000 == b2 + 0x100 * b3;
    assert n / 0x100_0000 == b3;
  }

  /** A whole bundle around a compressed text. */
  function Frame(textLen: nat, hash: seq<Byte>, compressed: seq<Byte>): seq<Byte>
    requires |compressed| <= U32_MAX && textLen <= U32_MAX
  {
    MAGIC + [FORMAT_VERSION] + Le32(|compressed|) + Le32(textLen) + hash + compressed
  }

  predicate LooksLikeBundle(bytes: seq<Byte>) {
    |bytes| >= |MAGIC| && bytes[..|MAGIC|] == MAGIC
  }

  /** The layout of a bundle, byte by byte: the magic word, the version, the two lengths with
      the least significant byte first, the checksum, and the compressed text. */
  lemma FrameLayout(textLen: nat, hash: seq<Byte>, compressed: seq<Byte>)
    requires |compressed| <= U32_MAX && textLen <= U32_MAX && |hash| == HASH_LEN
    ensures var b := Frame(textLen, hash, compressed);
            && |b| == 49 + |compressed| && b[..8] == Text.Utf8("OXBUNDLE") && b[8] == 1
            && LengthAt(b, 9) == |compressed| && LengthAt(b, 13) == textLen
            && b[17..49] == hash && b[49..] == compressed
  {
    FrameParts(textLen, hash, compressed);
    Le32RoundTrip(|compressed|);
    Le32RoundTrip(textLen);
    MagicWord();
    LengthIsRead(Frame(textLen, hash, compressed), 9);
    LengthIsRead(Frame(textLen, hash, compressed), 13);
  }

  /** A length in a header, the least significant of its four bytes first. */
  ghost function LengthAt(b: seq<Byte>, at: nat): int
    requires at + 4 <= |b|
  {
    (b[at] as int) + 256 * (b[at + 1] as int) + 65536 * (b[at + 2] as int) + 16777216 * (b[at + 3] as int)
  }

  lemma LengthIsRead(b: seq<Byte>, at: nat)
    requires at + 4 <= |b|
    ensures LengthAt(b, at) == FromLe32(b[at..at + 4])
  {
  }

  lemma MagicWord()
    ensures Text.Utf8("OXBUNDLE") == MAGIC
  {
    assert "OXBUNDLE" == "O" + "XBUNDLE" && "XBUNDLE" == "X" + "BUNDLE" && "BUNDLE" == "B" + "UNDLE" && "UNDLE" == "U" + "NDLE";
    assert Text.Utf8("NDLE") == [0x4E, 0x44, 0x4C, 0x45];
  }

  lemma FrameParts(textLen: nat, hash: seq<Byte>, compressed: seq<Byte>)
    requires |compressed| <= U32_MAX && textLen <= U32_MAX && |hash| == HASH_LEN
    ensures var b := Frame(textLen, hash, compressed);
            && |b| == HEADER_LEN + |compressed| && LooksLikeBundle(b) && b[8] == FORMAT_VERSION
            && b[9..13] == Le32(|compressed|) && b[13..17] == Le32(textLen)
            && b[17..49] == hash && b[49..] == compressed
  {
  }

  // ---------------------------------------------------------------------
  // Encoding
  // ---------------------------------------------------------------------

  datatype EncodeError = NothingSelected | TooManySelected | NotExportable(name: string) | TextTooLarge | PayloadTooLarge

  function Services(procs: seq<Proc>): (r: seq<Service>)
    ensures |r| == |procs| && forall i :: 0 <= i < |r| ==> r[i] == FromManaged(procs[i])
  {
    seq(|procs|, i requires 0 <= i < |procs| => FromManaged(procs[i]))
  }

  predicate AllValid(services: seq<Service>) {
    forall i :: 0 <= i < |services| ==> ValidService(services[i])
  }

  function TextOf(c: Codec, procs: seq<Proc>, now: nat): seq<Byte> {
    c.serialize(Payload(KIND, FORMAT_VERSION, now, Services(procs)))
  }

  /** Which selections can be exported. */
  predicate Exportable(c: Codec, procs: seq<Proc>, now: nat) {
    && 0 < |procs| <= MAX_SERVICE_COUNT && AllValid(Services(procs))
    && |TextOf(c, procs, now)| <= MAX_JSON_BYTES
    && |c.compress(TextOf(c, procs, now))| <= MAX_BUNDLE_BYTES
  }

  lemma ValidOneMore(accepted: seq<Service>, s: Service)
    ensures AllValid(accepted + [s]) <==> AllValid(accepted) && ValidService(s)
  {
    var more := accepted + [s];
    assert more[|accepted|] == s && forall i :: 0 <= i < |accepted| ==> more[i] == accepted[i];
  }

  lemma InvalidPart(services: seq<Service>, k: nat)
    requires k <= |services| && !AllValid(services[..k])
    ensures !AllValid(services)
  {
  }

  lemma ServicesOneMore(procs: seq<Proc>, k: nat)
    requires k < |procs|
    ensures Services(procs[..k + 1]) == Services(procs[..k]) + [FromManaged(procs[k])]
    ensures Services(procs)[..k + 1] == Services(procs[..k + 1])
  {
  }

  method ConvertAll(procs: seq<Proc>) returns (r: Result<seq<Service>, EncodeError>)
    ensures r.Ok? <==> AllValid(Services(procs))
    ensures r.Ok? ==> r.value == Services(procs)
  {
    var services: seq<Service> := [];
    for k := 0 to |procs|
      invariant services == Services(procs[..k]) && AllValid(services)
    {
      var service := FromManaged(procs[k]);
      ServicesOneMore(procs, k);
      ValidOneMore(services, service);
      var ok := ValidateService(service);
      if !ok {
        InvalidPart(Services(procs), k + 1);
        return Err(NotExportable(service.name));
      }
      services := services + [service];
    }
    assert procs[..|procs|] == procs;
    return Ok(services);
  }

  method EncodeBundle(c: Codec, procs: seq<Proc>, now: nat) returns (r: Result<seq<Byte>, EncodeError>)
    ensures r.Ok? <==> Exportable(c, procs, now)
    ensures r.Ok? ==> var text := TextOf(c, procs, now); r.value == Frame(|text|, c.digest(text), c.compress(text))
  {
    if procs == [] {
      return Err(NothingSelected);
    }
    if |procs| > 512 {
      return Err(TooManySelected);
    }
    var services := ConvertAll(procs);
    if services.Err? {
      return Err(services.error);
    }
    var text := c.serialize(Payload(KIND, FORMAT_VERSION, now, services.value));
    if |text| > 2 * 1024 * 1024 {
      return Err(TextTooLarge);
    }
    var compressed := c.compress(text);
    if |compressed| > 8 * 1024 * 1024 {
      return Err(PayloadTooLarge);
    }
    return Ok(MAGIC + [FORMAT_VERSION] + Le32(|compressed|) + Le32(|text|) + c.digest(text) + compressed);
  }

  // ---------------------------------------------------------------------
  // Decoding
  // ---------------------------------------------------------------------

  datatype DecodeError = BadFrame | BadPayload | BadChecksum | BadMetadata | BadService(name: string) | Repeated(name: string)

  predicate DistinctNames(services: seq<Service>) {
    forall i, j :: 0 <= i < j < |services| ==> services[i].name != services[j].name
  }

  function Specs(services: seq<Service>, quote: (string, seq<string>) -> string): (r: seq<StartSpec>)
    ensures |r| == |services| && forall i :: 0 <= i < |r| ==> r[i] == IntoStartSpec(services[i], quote)
  {
    seq(|services|, i requires 0 <= i < |services| => IntoStartSpec(services[i], quote))
  }

  predicate WellFramed(bytes: seq<Byte>) {
    && HEADER_LEN <= |bytes| <= HEADER_LEN + MAX_BUNDLE_BYTES
    && LooksLikeBundle(bytes) && bytes[8] == FORMAT_VERSION
    && FromLe32(bytes[9..13]) <= MAX_BUNDLE_BYTES && FromLe32(bytes[13..17]) <= MAX_JSON_BYTES
    && |bytes| == HEADER_LEN + FromLe32(bytes[9..13])
  }

  predicate ValidPayload(p: Payload) {
    && p.kind == KIND && p.version == FORMAT_VERSION && 0 < |p.services| <= MAX_SERVICE_COUNT
    && AllValid(p.services) && DistinctNames(p.services)
  }

  /** A bundle is accepted when its frame, its checksum and all its services are in order. */
  predicate Acceptable(c: Codec, bytes: seq<Byte>) {
    && WellFramed(bytes)
    && c.decompress(bytes[HEADER_LEN..]).Some?
    && var text := c.decompress(bytes[HEADER_LEN..]).value;
    && |text| == FromLe32(bytes[13..17])
    && c.digest(text) == bytes[17..HEADER_LEN]
    && c.parse(text).Some? && ValidPayload(c.parse(text).value)
  }

  /** The decompressor hands out its output in chunks; too much of it is refused
      before it is all collected. */
  method DecompressPayload(c: Codec, compressed: seq<Byte>) returns (r: Result<seq<Byte>, DecodeError>)
    ensures r.Ok? <==> c.decompress(compressed).Some? && |c.decompress(compressed).value| <= MAX_JSON_BYTES
    ensures r.Ok? ==> r.value == c.decompress(compressed).value
  {
    var output := c.decompress(compressed);
    if output.None? {
      return Err(BadPayload);
    }
    var result: seq<Byte> := [];
    var left := output.value;
    while true
      invariant result + left == output.value && |result| <= MAX_JSON_BYTES
      decreases |left|
    {
      var read := if |left| < CHUNK_BYTES then |left| else CHUNK_BYTES;
      if read == 0 {
        break;
      }
      if |result| + read > 2 * 1024 * 1024 {
        return Err(BadPayload);
      }
      assert result + left == (result + left[..read]) + left[read..];
      result := result + left[..read];
      left := left[read..];
    }
    assert result + left == result;
    return Ok(result);
  }

  ghost predicate NamesAre(services: seq<Service>, names: set<string>) {
    forall n :: n in names <==> exists i :: 0 <= i < |services| && services[i].name == n
  }

  lemma AcceptOne(accepted: seq<Service>, s: Service, seen: set<string>)
    requires DistinctNames(accepted) && NamesAre(accepted, seen) && s.name !in seen
    ensures DistinctNames(accepted + [s]) && NamesAre(accepted + [s], seen + {s.name})
  {
    var more := accepted + [s];
    forall n ensures n in seen + {s.name} <==> exists i :: 0 <= i < |more| && more[i].name == n {
      if n in seen {
        var i :| 0 <= i < |accepted| && accepted[i].name == n;
        assert more[i].name == n;
      }
      if n == s.name {
        assert more[|accepted|].name == n;
      }
    }
  }

  lemma SpecsOneMore(accepted: seq<Service>, s: Service, quote: (string, seq<string>) -> string)
    ensures Specs(accepted + [s], quote) == Specs(accepted, quote) + [IntoStartSpec(s, quote)]
  {
  }

  lemma RepeatedPart(services: seq<Service>, k: nat, seen: set<string>)
    requires k < |services| && NamesAre(services[..k], seen) && services[k].name in seen
    ensures !DistinctNames(services)
  {
    var i :| 0 <= i < k && services[..k][i].name == services[k].name;
    assert services[i].name == services[k].name;
  }

  method AcceptServices(services: seq<Service>, quote: (string, seq<string>) -> string)
    returns (r: Result<seq<StartSpec>, DecodeError>)
    ensures r.Ok? <==> AllValid(services) && DistinctNames(services)
    ensures r.Ok? ==> r.value == Specs(services, quote)
  {
    var seen: set<string> := {};
    var result: seq<StartSpec> := [];
    for k := 0 to |services|
      invariant AllValid(services[..k]) && DistinctNames(services[..k]) && NamesAre(services[..k], seen)
      invariant result == Specs(services[..k], quote)
    {
      var service := services[k];
      ghost var accepted := services[..k];
      assert services[..k + 1] == accepted + [service];
      ValidOneMore(accepted, service);
      var ok := ValidateService(service);
      if !ok {
        InvalidPart(services, k + 1);
        return Err(BadService(service.name));
      }
      if service.name in seen {
        RepeatedPart(services, k, seen);
        return Err(Repeated(service.name));
      }
      AcceptOne(accepted, service, seen);
      SpecsOneMore(accepted, service, quote);
      seen := seen + {service.name};
      result := result + [IntoStartSpec(service, quote)];
    }
    assert services[..|services|] == services;
    return Ok(result);
  }

  method ReadFrame(c: Codec, bytes: seq<Byte>) returns (r: Result<seq<Byte>, DecodeError>)
    ensures r.Ok? <==>
            && WellFramed(bytes) && c.decompress(bytes[HEADER_LEN..]).Some?
            && var text := c.decompress(bytes[HEADER_LEN..]).value;
            |text| == FromLe32(bytes[13..17]) && c.digest(text) == bytes[17..HEADER_LEN]
    ensures r.Ok? ==> r.value == c.decompress(bytes[HEADER_LEN..]).value
  {
    if |bytes| < HEADER_LEN || |bytes| > HEADER_LEN + MAX_BUNDLE_BYTES || bytes[..|MAGIC|] != MAGIC {
      return Err(BadFrame);
    }
    if bytes[8] != FORMAT_VERSION {
      return Err(BadFrame);
    }
    var payloadLen, expectedLen := FromLe32(bytes[9..13]), FromLe32(bytes[13..17]);
    if payloadLen > 8 * 1024 * 1024 || expectedLen > 2 * 1024 * 1024 || |bytes| != HEADER_LEN + payloadLen {
      return Err(BadFrame);
    }
    var decoded := DecompressPayload(c, bytes[49..]);
    if decoded.Err? || |decoded.value| != expectedLen {
      return Err(BadPayload);
    }
    if c.digest(decoded.value) != bytes[17..49] {
      return Err(BadChecksum);
    }
    return decoded;
  }

  method DecodeBundle(c: Codec, bytes: seq<Byte>) returns (r: Result<seq<StartSpec>, DecodeError>)
    ensures r.Ok? <==> Acceptable(c, bytes)
    ensures r.Ok? ==> r.value == Specs(c.parse(c.decompress(bytes[HEADER_LEN..]).value).value.services, c.quote)
  {
    var decoded := ReadFrame(c, bytes);
    if decoded.Err? {
      return Err(decoded.error);
    }
    var parsed := c.parse(decoded.value);
    if parsed.None? || parsed.value.kind != KIND || parsed.value.version != FORMAT_VERSION {
      return Err(BadMetadata);
    }
    if parsed.value.services == [] || |parsed.value.services| > 512 {
      return Err(BadMetadata);
    }
    r := AcceptServices(parsed.value.services, c.quote);
  }

  // ---------------------------------------------------------------------
  // Round trips
  // ---------------------------------------------------------------------

  lemma FrameIsRead(textLen: nat, hash: seq<Byte>, compressed: seq<Byte>)
    requires |compressed| <= MAX_BUNDLE_BYTES && textLen <= MAX_JSON_BYTES && |hash| == HASH_LEN
    ensures var b := Frame(textLen, hash, compressed);
            && WellFramed(b) && FromLe32(b[13..17]) == textLen
            && b[17..HEADER_LEN] == hash && b[HEADER_LEN..] == compressed
  {
    FrameParts(textLen, hash, compressed);
    Le32RoundTrip(textLen);
    Le32RoundTrip(|compressed|);
  }

  lemma SameNames(procs: seq<Proc>)
    ensures DistinctNames(Services(procs)) <==> forall i, j :: 0 <= i < j < |procs| ==> procs[i].name != procs[j].name
  {
    var services := Services(procs);
    assert forall i :: 0 <= i < |procs| ==> services[i].name == procs[i].name;
  }

  /** What is exported decodes exactly when no name is exported twice (which only the
      decoder checks), and then to the exported services in order. */
  lemma ExportedDecodesIff(c: Codec, procs: seq<Proc>, now: nat)
    requires Faithful(c) && Exportable(c, procs, now)
    ensures var text := TextOf(c, procs, now);
            var bytes := Frame(|text|, c.digest(text), c.compress(text));
            && (Acceptable(c, bytes) <==>
                forall i, j :: 0 <= i < j < |procs| ==> procs[i].name != procs[j].name)
            && c.decompress(bytes[HEADER_LEN..]) == Some(text)
            && c.parse(text) == Some(Payload(KIND, FORMAT_VERSION, now, Services(procs)))
  {
    var text := TextOf(c, procs, now);
    FrameIsRead(|text|, c.digest(text), c.compress(text));
    SameNames(procs);
  }

  /** The whole trip. */
  method RoundTrip(c: Codec, procs: seq<Proc>, now: nat) returns (r: Result<seq<StartSpec>, DecodeError>)
    requires Faithful(c) && Exportable(c, procs, now)
    ensures r.Ok? <==> forall i, j :: 0 <= i < j < |procs| ==> procs[i].name != procs[j].name
    ensures r.Ok? ==> |r.value| == |procs| && forall i :: 0 <= i < |procs| ==>
                        r.value[i] == IntoStartSpec(FromManaged(procs[i]), c.quote)
  {
    var encoded := EncodeBundle(c, procs, now);
    ExportedDecodesIff(c, procs, now);
    r := DecodeBundle(c, encoded.value);
  }

  /** Accepted bytes are the frame of their own content: no byte of the header is free. */
  lemma AcceptedIsFramed(c: Codec, bytes: seq<Byte>)
    requires Acceptable(c, bytes)
    ensures var compressed := bytes[HEADER_LEN..];
            var text := c.decompress(compressed).value;
            && |compressed| <= MAX_BUNDLE_BYTES && |text| <= MAX_JSON_BYTES
            && |bytes| == HEADER_LEN + |compressed|
            && bytes == Frame(|text|, c.digest(text), compressed)
  {
    Le32Injective(bytes[9..13]);
    Le32Injective(bytes[13..17]);
    assert bytes == bytes[..8] + [bytes[8]] + bytes[9..13] + bytes[13..17] + bytes[17..49] + bytes[49..];
  }

  /** Normalised settings that are encoded survive the trip unchanged, command line aside.
      `Export` says what of a managed process is encoded in the first place. */
  lemma SettingsSurvive(p: Proc, quote: (string, seq<string>) -> string)
    requires p.config == Normalized(p.config) && ValidService(FromManaged(p))
    ensures IntoStartSpec(FromManaged(p), quote).config == p.config.(command := "", args := [])
    ensures IntoStartSpec(FromManaged(p), quote).commandLine == quote(p.config.command, p.config.args)
  {
  }
}
