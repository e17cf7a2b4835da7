/** `ppe-scrape/stages/fs-stages/src-folder.ts`: the `ENSURE_SRC_DIR`
    handler. It renders the folder template, resolves it under the output
    directory, appends one random suffix when the folder already exists,
    and creates the folder. */
module SrcFolder {
  import opened Wrappers
  import opened JsString
  import opened Paths
  import opened Fs
  import opened Crypt
  import opened Ppe
  import opened ScrapeTypes
  import opened ExtractorStage

  /** The host without a leading `www.`, up to its first dot. */
  function HostLabel(hostname: string): string {
    var h := if StartsWith(hostname, "www.") then hostname[4..] else hostname;
    BeforeFirst(h, '.')
  }

  /** The folder name: the first `{topic}` becomes the topic (or `topic`),
      then the first `{hostname}` becomes the host label. Both are string
      replacements, so `$` patterns in the replacement apply. */
  function FolderName(folderTemplate: string, topic: string, hostname: string): string {
    ReplaceFirst(ReplaceFirst(folderTemplate, "{topic}", Or(topic, "topic")), "{hostname}", HostLabel(hostname))
  }

  /** The folder actually used: the target, or the target with the 4-hex
      suffix `randomHash(2)` when the target exists. */
  function FinalSrcDir(env: Env, target: string): string {
    if env.pathExists(target) then target + RandomHash(env.collisionBytes) else target
  }

  function CreateFailReason(path: string): string {
    "An error occurred when tried to create absSrcDirPath as \"" + path + "\""
  }

  function AlreadyExistMessage(path: string): string {
    "\"" + path + "\" already exist!"
  }

  /** The `try` block: fail when the final folder exists, else create it. */
  function CreateSrcDir(env: Env, target: string): State<ScrapeResponse> {
    var p := FinalSrcDir(env, target);
    var reason := CreateFailReason(p);
    if env.pathExists(p) then FailedState(reason, Err(AlreadyExistMessage(p)), map[])
    else
      match env.mkdir(p)
      case Some(t) => FailedState(reason, AsError(t, reason), map[])
      case None => SuccessState(SrcDir(p), map[])
  }

  /** What `new URL(s)` throws for an unparsable string. */
  const InvalidUrl: Error := Error("TypeError", "Invalid URL")

  /** The folder `path.resolve(swd, dir)` aims at, before any suffix. */
  function SrcDirTarget(env: Env, cfg: Config, hostname: string): string {
    var swd := SafeResolveOutDir(cfg.out, env.cwd, env.realpath);
    ToString(Resolve(env.cwd, swd, FolderName(cfg.folderTemplate, cfg.topic, hostname)))
  }

  /** The `ENSURE_SRC_DIR` handler. */
  function EnsureSrcDirHandler(schemaConfig: Option<Config>, env: Env, ps: PipeState<ScrapeResponse>): HandlerResult<ScrapeResponse> {
    match SchemaConfig(schemaConfig)
    case Failure(e) => Throws(AnError(e))
    case Success(cfg) =>
      match RenderedPageOf(ps)
      case Failure(e) => Throws(AnError(e))
      case Success(page) =>
        match env.lib.parse(page.url)
        case None => Throws(AnError(InvalidUrl))
        case Some(u) => Returns(CreateSrcDir(env, SrcDirTarget(env, cfg, u.hostname)))
  }

  /** The handler needs a configuration and then a successful renderer stage,
      and throws their errors otherwise; given both and a parsable page URL it
      always returns a state. */
  lemma EnsureSrcDirNeeds(schemaConfig: Option<Config>, env: Env, ps: PipeState<ScrapeResponse>)
    ensures schemaConfig.None? ==>
      EnsureSrcDirHandler(schemaConfig, env, ps) == Throws(AnError(Error("Error", ConfigMissingMessage)))
    ensures schemaConfig.Some? && SuccessStateAt(ps, ByName(RendererStageName)).Failure? ==>
      EnsureSrcDirHandler(schemaConfig, env, ps) == Throws(AnError(SuccessStateAt(ps, ByName(RendererStageName)).error))
    ensures schemaConfig.Some? && RenderedPageOf(ps).Success? ==>
      var url := RenderedPageOf(ps).value.url;
      (env.lib.parse(url).None? ==> EnsureSrcDirHandler(schemaConfig, env, ps) == Throws(AnError(InvalidUrl)))
      && (env.lib.parse(url).Some? ==>
            EnsureSrcDirHandler(schemaConfig, env, ps)
            == Returns(CreateSrcDir(env, SrcDirTarget(env, schemaConfig.value, env.lib.parse(url).value.hostname))))
  {
  }

  /** The suffix is added at most once: an existing target gets exactly four
      hex digits appended, a free one is kept as it is. */
  lemma SuffixOnce(env: Env, target: string)
    ensures env.pathExists(target) ==>
      var p := FinalSrcDir(env, target);
      |p| == |target| + 4 && p[..|target|] == target
      && forall i :: |target| <= i < |p| ==> IsHexDigit(p[i])
    ensures !env.pathExists(target) ==> FinalSrcDir(env, target) == target
  {
    if env.pathExists(target) {
      var p := FinalSrcDir(env, target);
      assert p == target + RandomHash(env.collisionBytes);
      assert forall i :: |target| <= i < |p| ==> p[i] == RandomHash(env.collisionBytes)[i - |target|];
    }
  }

  /** The stage succeeds exactly when the final folder does not exist and
      creating it does not throw; the response is that folder. Otherwise it
      fails with a reason naming the folder. A free target can only fail in
      `mkdir`. */
  lemma CreateSrcDirOutcome(env: Env, target: string)
    ensures var p := FinalSrcDir(env, target);
      var st := CreateSrcDir(env, target);
      (st.SuccessState? <==> !env.pathExists(p) && env.mkdir(p).None?)
      && (st.SuccessState? ==> st == SuccessState(SrcDir(p), map[]))
      && (!st.SuccessState? ==> st.FailedState? && st.reason == CreateFailReason(p))
    ensures !env.pathExists(target) && CreateSrcDir(env, target).FailedState? ==>
      env.mkdir(target).Some?
  {
  }

  /** Text without the two tokens passes through, and the default template
      `{topic}` becomes the topic, or `topic` when it is empty (for a topic
      with no `$` and no `{hostname}` in it). */
  lemma FolderNameFacts(folderTemplate: string, topic: string, hostname: string)
    ensures IndexOf(folderTemplate, "{topic}").None? && IndexOf(folderTemplate, "{hostname}").None? ==>
      FolderName(folderTemplate, topic, hostname) == folderTemplate
    ensures '$' !in topic && IndexOf(Or(topic, "topic"), "{hostname}").None? ==>
      FolderName("{topic}", topic, hostname) == Or(topic, "topic")
  {
    if '$' !in topic {
      assert '$' !in "topic";
      ReplaceWhole("{topic}", Or(topic, "topic"));
    }
  }

  /** The text up to the first dot of `name.rest` is `name`. */
  lemma BeforeFirstDot(name: string, rest: string)
    requires '.' !in name
    ensures BeforeFirst(name + "." + rest, '.') == name
  {
    SplitJoin(rest, '.');
    var ps := Split(rest, '.');
    assert forall i :: 0 <= i < |[name] + ps| ==> '.' !in ([name] + ps)[i];
    JoinSplit([name] + ps, '.');
    assert Join([name] + ps, ".") == name + "." + Join(ps, ".");
  }

  /** A leading `www.` is dropped and the name ends at the next dot:
      `www.example.com` and `example.com` both give `example`. */
  lemma HostLabelOf(name: string, rest: string)
    requires '.' !in name
    ensures HostLabel("www." + name + "." + rest) == name
    ensures !StartsWith(name + "." + rest, "www.") ==> HostLabel(name + "." + rest) == name
  {
    var w := "www." + name + "." + rest;
    assert w[..4] == "www.";
    assert w[4..] == name + "." + rest;
    BeforeFirstDot(name, rest);
  }

  /** The host label drops `www.` and everything from the first dot on. */
  lemma HostLabelFacts(hostname: string)
    ensures '.' !in HostLabel(hostname)
    ensures !StartsWith(hostname, "www.") && '.' !in hostname ==> HostLabel(hostname) == hostname
  {
    var h := if StartsWith(hostname, "www.") then hostname[4..] else hostname;
    SplitJoin(h, '.');
    if '.' !in hostname && !StartsWith(hostname, "www.") {
      NoSepSplit(hostname, '.');
    }
  }
}
