/** `oxmgr export` (src/commands/export.rs): what a bundle keeps of the process it was
    made from. The exporter only has the record the daemon sends to clients, so the
    environment is lost and a webhook secret makes the export fail. */
module Export {
  import opened Prelude
  import opened Domain
  import opened Lifecycle
  import LifecycleInvariant
  import opened Daemon
  import opened Bundle

  function WithoutEnv(p: Proc): Proc {
    p.(config := p.config.(env := map[]))
  }

  /** A sent record can be exported exactly when it has no webhook secret and its settings
      other than the environment are valid. Even an environment no bundle may hold does
      not stand in the way. */
  lemma SentIsValidIff(p: Proc)
    ensures ValidService(FromManaged(WithoutSecrets(p)))
            <==> p.config.pullSecretHash.None? && ValidService(FromManaged(WithoutEnv(p)))
    ensures ValidService(FromManaged(p)) ==>
              (ValidService(FromManaged(WithoutSecrets(p))) <==> p.config.pullSecretHash.None?)
  {
    if p.config.pullSecretHash.None? {
      assert WithoutSecrets(p) == WithoutEnv(p);
    } else {
      assert |FromManaged(WithoutSecrets(p)).config.pullSecretHash.value| != 64;
    }
  }

  /** Settings the daemon holds come back without the environment: unchanged, command line
      aside, exactly when there was none. */
  lemma SentSettingsSurviveIff(p: Proc, quote: (string, seq<string>) -> string)
    requires p.config == Normalized(p.config) && ValidService(FromManaged(WithoutSecrets(p)))
    ensures IntoStartSpec(FromManaged(WithoutSecrets(p)), quote).config
            == p.config.(command := "", args := [], env := map[])
    ensures IntoStartSpec(FromManaged(WithoutSecrets(p)), quote).config == p.config.(command := "", args := [])
            <==> p.config.env == map[]
  {
    SentIsValidIff(p);
    var sent := WithoutSecrets(p);
    SettingsSurvive(sent, quote);
    assert p.config.(command := "", args := []).env == p.config.env;
  }

  /** The bundle of one record is within the limits. */
  predicate Fits(c: Codec, p: Proc, now: nat) {
    |TextOf(c, [p], now)| <= MAX_JSON_BYTES && |c.compress(TextOf(c, [p], now))| <= MAX_BUNDLE_BYTES
  }

  lemma OneExportableIff(c: Codec, p: Proc, now: nat)
    ensures Exportable(c, [p], now) <==> ValidService(FromManaged(p)) && Fits(c, p, now)
  {
    assert Services([p])[0] == FromManaged(p);
  }

  /** The process a target names can be exported. */
  ghost predicate CanExport(s: State, target: string, c: Codec, now: nat) {
    && Find(s.processes, target).Some?
    && var p := Find(s.processes, target).value;
    && p.config.pullSecretHash.None? && ValidService(FromManaged(WithoutEnv(p))) && Fits(c, WithoutSecrets(p), now)
  }

  datatype ExportError = UnknownTarget | NotEncoded(error: EncodeError)

  /** Asks the daemon for the process and encodes what it sent. */
  method ExportProcess(daemon: DaemonLoop, target: string, c: Codec, now: nat)
    returns (r: Result<seq<Byte>, ExportError>)
    requires daemon.Settled()
    ensures r.Ok? <==> CanExport(daemon.manager.View(), target, c, now)
    ensures r.Ok? ==>
              var sent := WithoutSecrets(Find(daemon.manager.processes, target).value);
              var text := TextOf(c, [sent], now);
              Exportable(c, [sent], now) && r.value == Frame(|text|, c.digest(text), c.compress(text))
  {
    var response := daemon.HandleQuery(Status(target));
    if response.process.None? {
      return Err(UnknownTarget);
    }
    var sent := response.process.value.process;
    SentIsValidIff(Find(daemon.manager.processes, target).value);
    OneExportableIff(c, sent, now);
    var encoded := EncodeBundle(c, [sent], now);
    return if encoded.Ok? then Ok(encoded.value) else Err(NotEncoded(encoded.error));
  }

  /** What an exported process is imported as. */
  ghost predicate ImportedAs(p: Proc, c: Codec, spec: StartSpec) {
    && spec.name == p.name && spec.commandLine == c.quote(p.config.command, p.config.args)
    && spec.config == p.config.(command := "", args := [], env := map[])
    && (spec.config == p.config.(command := "", args := []) <==> p.config.env == map[])
  }

  lemma SentIsImportedAs(p: Proc, c: Codec)
    requires p.config == Normalized(p.config) && ValidService(FromManaged(WithoutSecrets(p)))
    ensures ImportedAs(p, c, IntoStartSpec(FromManaged(WithoutSecrets(p)), c.quote))
  {
    SentSettingsSurviveIff(p, c.quote);
    SettingsSurvive(WithoutSecrets(p), c.quote);
  }

  lemma FoundIsNormalized(s: State, target: string)
    requires LifecycleInvariant.Inv(s) && Find(s.processes, target).Some?
    ensures var p := Find(s.processes, target).value; p.config == Normalized(p.config)
  {
    var p := Find(s.processes, target).value;
    var n :| n in s.processes && s.processes[n] == p;
    assert LifecycleInvariant.SlotOk(n, SlotOf(s, n));
  }

  /** The whole trip, from a managed process to a start specification: whatever can be
      exported can be imported, and comes back as it was except for its environment. */
  method ExportAndImport(daemon: DaemonLoop, target: string, c: Codec, now: nat)
    returns (r: Option<StartSpec>)
    requires daemon.Settled() && Faithful(c)
    ensures r.Some? <==> CanExport(daemon.manager.View(), target, c, now)
    ensures r.Some? ==> ImportedAs(Find(daemon.manager.processes, target).value, c, r.value)
  {
    var bundle := ExportProcess(daemon, target, c, now);
    if bundle.Err? {
      return None;
    }
    ghost var p := Find(daemon.manager.processes, target).value;
    ghost var sent := WithoutSecrets(p);
    ExportedDecodesIff(c, [sent], now);
    var specs := DecodeBundle(c, bundle.value);
    assert specs.Ok? && specs.value[0] == IntoStartSpec(FromManaged(sent), c.quote);
    FoundIsNormalized(daemon.manager.View(), target);
    SentIsValidIff(p);
    SentIsImportedAs(p, c);
    return Some(specs.value[0]);
  }
}
