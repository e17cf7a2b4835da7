/** `ppe-scrape/run.ts` with the singleton of `ppe-scrape/ppe.ts`: the module
    variable `schemaConfig`, and `run`, which sets it, wires the five stages
    onto `SCRAPE_PIPE`, finishes the pipeline and resets it. Also the two
    stages only `run` uses: the renderer choice and `AUDIT_LOGS_STAGE`. */
module ScrapeRun {
  import opened Wrappers
  import opened Paths
  import opened Ppe
  import opened ScrapeTypes
  import opened ExtractorStage
  import opened SrcFolder
  import opened DownloadThenFilter
  import opened PpeSteps
  import JsString

  type Handler = PipeState<ScrapeResponse> -> HandlerResult<ScrapeResponse>

  // ---------------------------------------------------------------------
  // The renderer and audit stages

  const HeadlessReason: string := "Fetching and extracting HTML through virtual browser is not yet implemented in beta version"

  const HeadlessState: State<ScrapeResponse> :=
    FailedState(HeadlessReason, Err(HeadlessReason), map["explicitStageName" := MStr("RENDERER_BY_HEADLESS_STAGE")])

  /** `renderByHeadlessAsyncHandler`: always the same failed state. */
  function HeadlessHandler(ps: PipeState<ScrapeResponse>): HandlerResult<ScrapeResponse> {
    Returns(HeadlessState)
  }

  /** `RENDERER_STAGE.setBy(render)`: the headless handler for `headless`,
      the HTML fetcher (a parameter of the model) otherwise. */
  function RendererHandler(render: RenderMode, htmlRender: Handler): Handler {
    if render == Headless then HeadlessHandler else htmlRender
  }

  /** `path.resolve(absSrcDirPath, './audit-logs.json')`. */
  function AuditLogsPath(env: Env, absSrcDirPath: string): string {
    ToString(Resolve(env.cwd, absSrcDirPath, "./audit-logs.json"))
  }

  /** The `AUDIT_LOGS_STAGE` handler: configuration, then the successful
      `DOWNLOAD_STAGE`, then the write of the log file. */
  function AuditLogsHandler(schemaConfig: Option<Config>, env: Env, ps: PipeState<ScrapeResponse>): HandlerResult<ScrapeResponse> {
    match SchemaConfig(schemaConfig)
    case Failure(e) => Throws(AnError(e))
    case Success(_) =>
      match SuccessStateAt(ps, ByName(DownloadStageName))
      case Failure(e) => Throws(AnError(e))
      case Success(st) =>
        if !(st.SuccessState? && st.response.Downloaded?) then Throws(AnError(ResponseTypeError(DownloadStageName)))
        else
          var p := AuditLogsPath(env, st.response.downloads.absSrcDirPath);
          match env.writeFile(p)
          case Some(t) => Throws(t)
          case None => Returns(SuccessState(AuditLogs(p), map[]))
  }

  /** The audit handler throws the lookup error whenever no stage is named
      `DOWNLOAD_STAGE`, and otherwise succeeds exactly when the download
      stage succeeded and the write did not throw. */
  lemma AuditLogsNeedsDownload(schemaConfig: Option<Config>, env: Env, ps: PipeState<ScrapeResponse>)
    requires ValidState(ps)
    ensures schemaConfig.Some? && (forall i :: 0 <= i < |ps.stages| ==> ps.stages[i].name != DownloadStageName) ==>
      AuditLogsHandler(schemaConfig, env, ps) == Throws(AnError(Err(NoStageMessage(ps.name, ByName(DownloadStageName)))))
    ensures AuditLogsHandler(schemaConfig, env, ps).Returns? <==>
      schemaConfig.Some? && SuccessStateAt(ps, ByName(DownloadStageName)).Success?
      && SuccessStateAt(ps, ByName(DownloadStageName)).value.response.Downloaded?
      && env.writeFile(AuditLogsPath(env, SuccessStateAt(ps, ByName(DownloadStageName)).value.response.downloads.absSrcDirPath)).None?
    ensures AuditLogsHandler(schemaConfig, env, ps).Returns? ==>
      AuditLogsHandler(schemaConfig, env, ps).state.SuccessState?
  {
    if DownloadStageName in ps.idxMap {
      assert ps.stages[ps.idxMap[DownloadStageName]].name == DownloadStageName;
    }
    SuccessStateAtFails(ps, ByName(DownloadStageName));
  }

  // ---------------------------------------------------------------------
  // The wiring

  /** `SCRAPE_PIPE`'s description is not part of this model. */
  const ScrapePipeDesc: string := ""

  /** The five stages `run` attaches, in order. */
  const WiredNames: seq<string> :=
    [RendererStageName, ExtractorStageName, EnsureSrcDirStageName, DownloadThenFilterStageName, AuditLogsStageName]

  // Each `X_STAGE.create()`, its handler reading `schemaConfig`. Stage
  // descriptions are not part of this model.

  function RendererSkeleton(render: RenderMode, htmlRender: Handler): Skeleton<ScrapeResponse> {
    CreateStage(ScrapePipeName, RendererStageName, "", RendererHandler(render, htmlRender))
  }

  function ExtractorSkeleton(schemaConfig: Option<Config>, env: Env): Skeleton<ScrapeResponse> {
    CreateStage(ScrapePipeName, ExtractorStageName, "", ps => ExtractorHandler(schemaConfig, env.lib, ps))
  }

  function EnsureSrcDirSkeleton(schemaConfig: Option<Config>, env: Env): Skeleton<ScrapeResponse> {
    CreateStage(ScrapePipeName, EnsureSrcDirStageName, "", ps => EnsureSrcDirHandler(schemaConfig, env, ps))
  }

  /** The corrected filter of `DownloadThenFilter` (`asWritten` false): an
      undefined `excludeFormats` excludes nothing. The filter as written is
      `DownloadThenFilterHandler` with `asWritten` true. */
  function DownloadThenFilterSkeleton(schemaConfig: Option<Config>, env: Env): Skeleton<ScrapeResponse> {
    CreateStage(ScrapePipeName, DownloadThenFilterStageName, "", ps => DownloadThenFilterHandler(schemaConfig, env, ps, false))
  }

  function AuditLogsSkeleton(schemaConfig: Option<Config>, env: Env): Skeleton<ScrapeResponse> {
    CreateStage(ScrapePipeName, AuditLogsStageName, "", ps => AuditLogsHandler(schemaConfig, env, ps))
  }

  /** The five skeletons in the order `run` attaches them. */
  function Wired(cfg: Config, env: Env, htmlRender: Handler): seq<Skeleton<ScrapeResponse>> {
    [RendererSkeleton(cfg.render, htmlRender),
     ExtractorSkeleton(Some(cfg), env),
     EnsureSrcDirSkeleton(Some(cfg), env),
     DownloadThenFilterSkeleton(Some(cfg), env),
     AuditLogsSkeleton(Some(cfg), env)]
  }

  /** The five names are distinct, none is an `Object.prototype` key and
      none is `DOWNLOAD_STAGE`. */
  lemma WiredNamesFree()
    ensures forall i, j :: 0 <= i < j < 5 ==> WiredNames[i] != WiredNames[j]
    ensures forall i :: 0 <= i < 5 ==> WiredNames[i] !in JsString.ObjectPrototypeKeys && WiredNames[i] != DownloadStageName
  {
  }

  /** The audit stage, attached after the four others, never succeeds: it is
      skipped when the download-then-filter stage did not succeed, and
      otherwise its lookup of `DOWNLOAD_STAGE` throws and it fails. */
  lemma AuditStageFails(cfg: Config, env: Env, ps: PipeState<ScrapeResponse>)
    requires ValidState(ps) && |ps.stages| == 4
    requires forall i :: 0 <= i < 4 ==> ps.stages[i].name == WiredNames[i]
    ensures var u := AuditLogsSkeleton(Some(cfg), env).unassigned.(dependency := DependsOn(DownloadThenFilterStageName, 3));
      var reason := ThrowReason(Async, AuditLogsStageName);
      ExecuteResult(ps, u, AuditLogsSkeleton(Some(cfg), env).handler, Async).0.state
      == FailedState(reason, Err(NoStageMessage(ps.name, ByName(DownloadStageName))), map[])
  {
    WiredNamesFree();
    AuditLogsNeedsDownload(Some(cfg), env, ps);
  }

  /** Stage `i` (from 1) of the wiring: its name, not a must stage, and
      waiting for stage `i - 1`. */
  ghost predicate WiredStage(st: Stage<ScrapeResponse>, i: nat)
    requires 1 <= i < 5
  {
    st.name == WiredNames[i] && !st.isMust && st.dependency == DependsOn(WiredNames[i - 1], i - 1)
  }

  /** The audit stage fails on its lookup of `DOWNLOAD_STAGE` whenever the
      stage before it succeeded. */
  ghost predicate AuditFails(stages: seq<Stage<ScrapeResponse>>) {
    |stages| == 5
    && (stages[3].state.SuccessState? ==>
          stages[4].state == FailedState(ThrowReason(Async, AuditLogsStageName),
                                         Err(NoStageMessage(ScrapePipeName, ByName(DownloadStageName))), map[]))
  }

  /** The pipeline `run` builds: the five stages in order, the renderer the
      only must stage and every other waiting for the one before; once one
      has not succeeded every later one is skipped; the audit stage fails
      on its lookup whenever it runs, so it never succeeds. */
  ghost predicate WiredPipe(stages: seq<Stage<ScrapeResponse>>) {
    |stages| == 5
    && (forall i :: 0 <= i < 5 ==> stages[i].name == WiredNames[i] && stages[i].isMust == (i == 0))
    && stages[0].dependency.Independent?
    && (forall i :: 1 <= i < 5 ==> stages[i].dependency == DependsOn(WiredNames[i - 1], i - 1))
    && (forall j, i :: 0 <= j < i < 5 && !stages[j].state.SuccessState? ==> stages[i].state.SkippedState?)
    && AuditFails(stages)
    && !stages[4].state.SuccessState?
  }

  /** Stage by stage facts about the wiring make up `WiredPipe`. */
  lemma WiredPipeOf(stages: seq<Stage<ScrapeResponse>>)
    requires |stages| == 5 && Gated(stages)
    requires stages[0].name == RendererStageName && stages[0].isMust && stages[0].dependency.Independent?
    requires WiredStage(stages[1], 1) && WiredStage(stages[2], 2)
    requires WiredStage(stages[3], 3) && WiredStage(stages[4], 4)
    requires AuditFails(stages)
    ensures WiredPipe(stages)
  {
    assert forall i :: 1 <= i < 5 ==> WiredStage(stages[i], i);
    forall j, i | 0 <= j < i < 5 && !stages[j].state.SuccessState?
      ensures stages[i].state.SkippedState?
    {
      SkipsPropagate(stages, j, i);
    }
  }

  // ---------------------------------------------------------------------
  // The module state of `run.ts` and its `run`

  /** The module variable `schemaConfig` of `run.ts` together with the
      `SCRAPE_PIPELINE` singleton it drives. Only `run` attaches stages to
      the singleton, so its stages are always a prefix of the wiring. */
  class ScrapeRunner {
    var schemaConfig: Option<Config>
    const pipe: Pipeline<ScrapeResponse>

    ghost predicate Valid()
      reads this, pipe
    {
      pipe.Valid() && pipe.name == ScrapePipeName && |pipe.stages| <= 5
      && forall i :: 0 <= i < |pipe.stages| ==> pipe.stages[i].name == WiredNames[i]
    }

    /** Module load: no configuration, an empty `SCRAPE_PIPELINE`. */
    constructor()
      ensures Valid() && fresh(pipe) && schemaConfig.None?
      ensures pipe.State() == EmptyPipe(ScrapePipeName, ScrapePipeDesc)
    {
      schemaConfig := None;
      pipe := new Pipeline(ScrapePipeName, ScrapePipeDesc);
    }

    /** `useScrapePipe().getSchemaConfig()`. */
    method GetSchemaConfig() returns (r: Result<Config, Error>)
      ensures r == SchemaConfig(schemaConfig)
      ensures r.Success? <==> schemaConfig.Some?
      ensures r.Success? ==> r.value == schemaConfig.value
    {
      if schemaConfig.None? {
        return Failure(Error("Error", ConfigMissingMessage));
      }
      r := Success(schemaConfig.value);
    }

    /** `fromMustAsyncStage(skel)`: on a pipeline not yet started, stage 0,
        a must stage carrying what its handler produced; on a started one,
        the throw, with nothing changed. */
    method AttachFirst(skel: Skeleton<ScrapeResponse>) returns (err: Option<Error>)
      requires Valid()
      requires skel.unassigned.name == RendererStageName && skel.unassigned.dependency.Independent?
      modifies pipe
      ensures Valid()
      ensures old(pipe.isFromInvoked) ==>
        err == Some(Err(FromTwiceMessage(Async))) && pipe.State() == old(pipe.State())
      ensures !old(pipe.isFromInvoked) ==>
        err.None? && pipe.isFromInvoked && pipe.idxMap == map[skel.unassigned.name := 0]
        && pipe.stages == [Assign(ExecuteResult(old(pipe.State()).(isFromInvoked := true),
                                                skel.unassigned.(isMust := true), skel.handler, Async).0, 0)]
    {
      if !pipe.isFromInvoked {
        WiredNamesFree();
        FromFresh(pipe.State(), skel);
      }
      var invoked;
      err, invoked := pipe.FromStage(skel, true, Async);
    }

    /** Lines 35-37 of `run`: the renderer `setBy(render)` chose, as stage 0;
        the headless renderer leaves it failed. */
    method AttachRenderer(render: RenderMode, htmlRender: Handler) returns (err: Option<Error>)
      requires Valid()
      modifies pipe
      ensures Valid()
      ensures old(pipe.isFromInvoked) ==>
        err == Some(Err(FromTwiceMessage(Async))) && pipe.State() == old(pipe.State())
      ensures !old(pipe.isFromInvoked) ==>
        err.None? && pipe.isFromInvoked && |pipe.stages| == 1
        && pipe.stages[0].name == RendererStageName && pipe.stages[0].isMust
        && pipe.stages[0].dependency.Independent?
        && (render == Headless ==> pipe.stages[0].state == HeadlessState)
    {
      err := AttachFirst(RendererSkeleton(render, htmlRender));
    }

    /** `onlyThenStage(skel)` / `onlyThenAsyncStage(skel)` with a name not
        yet taken: one more stage, depending on the last one, skipped when
        that one did not succeed and otherwise holding what the handler
        produced. */
    method Append(skel: Skeleton<ScrapeResponse>, flavor: Flavor)
      requires pipe.Valid() && pipe.isFromInvoked && pipe.stages != []
      requires !NameTaken(pipe.State(), skel.unassigned.name)
      modifies pipe
      ensures pipe.Valid() && pipe.isFromInvoked
      ensures var n := |old(pipe.stages)|;
        var prev := old(pipe.stages)[n - 1];
        var u := skel.unassigned.(dependency := DependsOn(prev.name, n - 1));
        |pipe.stages| == n + 1 && pipe.stages[..n] == old(pipe.stages)
        && pipe.stages[n].name == u.name && pipe.stages[n].isMust == u.isMust
        && pipe.stages[n].dependency == u.dependency
        && (!prev.state.SuccessState? ==> pipe.stages[n].state.SkippedState?)
        && (prev.state.SuccessState? ==>
              pipe.stages[n] == Assign(ExecuteResult(old(pipe.State()), u, skel.handler, flavor).0, n))
    {
      OnlyThenAppends(pipe.State(), skel, flavor);
      var err, invoked := pipe.OnlyThenStage(skel, flavor);
    }

    /** The next wired stage: its name is not yet taken, so attaching it
        cannot throw. */
    method AttachNext(skel: Skeleton<ScrapeResponse>, flavor: Flavor)
      requires Valid() && pipe.isFromInvoked && 1 <= |pipe.stages| < 5
      requires skel.unassigned.name == WiredNames[|pipe.stages|]
      modifies pipe
      ensures Valid() && pipe.isFromInvoked
      ensures var n := |old(pipe.stages)|;
        var prev := old(pipe.stages)[n - 1];
        |pipe.stages| == n + 1 && pipe.stages[..n] == old(pipe.stages)
        && pipe.stages[n].name == skel.unassigned.name && pipe.stages[n].isMust == skel.unassigned.isMust
        && pipe.stages[n].dependency == DependsOn(prev.name, n - 1)
    {
      WiredNamesFree();
      NameFree(pipe.State(), skel.unassigned.name);
      Append(skel, flavor);
    }

    /** Lines 51-53 of `run`: `onlyThenAsyncStage(AUDIT_LOGS_STAGE.create())`,
        the last wired stage, which fails whenever it runs. */
    method AttachAudit(env: Env)
      requires Valid() && pipe.isFromInvoked && schemaConfig.Some? && |pipe.stages| == 4
      modifies pipe
      ensures Valid() && pipe.isFromInvoked && |pipe.stages| == 5 && pipe.stages[..4] == old(pipe.stages)
      ensures WiredStage(pipe.stages[4], 4) && AuditFails(pipe.stages)
    {
      var skel := AuditLogsSkeleton(schemaConfig, env);
      WiredNamesFree();
      NameFree(pipe.State(), skel.unassigned.name);
      if pipe.stages[3].state.SuccessState? {
        AuditStageFails(schemaConfig.value, env, pipe.State());
      }
      Append(skel, Async);
    }

    /** Lines 47-53 of `run`: `DOWNLOAD_THEN_FILTER_STAGE` and the audit stage. */
    method AttachFromDownload(env: Env)
      requires Valid() && pipe.isFromInvoked && schemaConfig.Some?
      requires |pipe.stages| == 3
      modifies pipe
      ensures Valid() && pipe.isFromInvoked && |pipe.stages| == 5 && pipe.stages[..3] == old(pipe.stages)
      ensures WiredStage(pipe.stages[3], 3) && WiredStage(pipe.stages[4], 4) && AuditFails(pipe.stages)
    {
      AttachNext(DownloadThenFilterSkeleton(schemaConfig, env), Async);
      ghost var four := pipe.stages;
      AttachAudit(env);
      assert pipe.stages[..3] == four[..3];
    }

    /** Lines 43-53 of `run`: `ENSURE_SRC_DIR_STAGE` and what follows it. */
    method AttachFromSrcDir(env: Env)
      requires Valid() && pipe.isFromInvoked && schemaConfig.Some?
      requires |pipe.stages| == 2
      modifies pipe
      ensures Valid() && pipe.isFromInvoked && |pipe.stages| == 5 && pipe.stages[..2] == old(pipe.stages)
      ensures WiredStage(pipe.stages[2], 2) && WiredStage(pipe.stages[3], 3) && WiredStage(pipe.stages[4], 4)
      ensures AuditFails(pipe.stages)
    {
      AttachNext(EnsureSrcDirSkeleton(schemaConfig, env), Async);
      ghost var three := pipe.stages;
      AttachFromDownload(env);
      assert pipe.stages[..2] == three[..2];
    }

    /** Lines 39-53 of `run`: `EXTRACTOR_STAGE` and what follows it. */
    method AttachAfterRenderer(env: Env)
      requires Valid() && pipe.isFromInvoked && schemaConfig.Some?
      requires |pipe.stages| == 1
      modifies pipe
      ensures Valid() && pipe.isFromInvoked && |pipe.stages| == 5 && pipe.stages[0] == old(pipe.stages[0])
      ensures WiredStage(pipe.stages[1], 1) && WiredStage(pipe.stages[2], 2)
      ensures WiredStage(pipe.stages[3], 3) && WiredStage(pipe.stages[4], 4)
      ensures AuditFails(pipe.stages)
    {
      AttachNext(ExtractorSkeleton(schemaConfig, env), Sync);
      ghost var two := pipe.stages;
      AttachFromSrcDir(env);
      assert pipe.stages[0] == two[0];
    }

    /** `scrapePipe.run(cfg)`. On a pipeline not yet started: the wired
        pipeline of `WiredPipe`, so the run is never a complete success; the
        statistics are `finish()`'s and the configuration is reset; with the
        headless renderer the renderer stage fails. On a started pipeline
        `fromMustAsyncStage` throws, leaving the pipeline and the
        configuration as they are. */
    method Run(cfg: Config, env: Env, htmlRender: Handler) returns (r: Result<FinishStats, Error>)
      requires Valid()
      modifies this, pipe
      ensures Valid()
      ensures old(pipe.isFromInvoked) ==>
        r == Failure(Err(FromTwiceMessage(Async))) && pipe.State() == old(pipe.State()) && schemaConfig == Some(cfg)
      ensures !old(pipe.isFromInvoked) ==>
        r == Success(FinishOf(pipe.State())) && schemaConfig.None?
        && WiredPipe(pipe.stages) && !r.value.completeSuccess
        && (cfg.render == Headless ==> pipe.stages[0].state == HeadlessState)
    {
      schemaConfig := Some(cfg);
      var c := GetSchemaConfig();
      var err := AttachRenderer(c.value.render, htmlRender);
      if err.Some? {
        return Failure(err.value);
      }
      AttachAfterRenderer(env);
      WiredPipeOf(pipe.stages);
      var stats := pipe.Finish();
      schemaConfig := None;
      r := Success(stats);
    }
  }
}
