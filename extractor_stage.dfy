/** `ppe-scrape/stages/extractor/index.ts`: the `EXTRACTOR_STAGE` handler,
    which combines the `<img>` candidates with the optional opengraph ones
    and lets a suppressed error through only when nothing was found. */
module ExtractorStage {
  import opened Wrappers
  import opened Fs
  import opened Ppe
  import opened ScrapeTypes
  import opened ExtractorUtils

  /** The response stored by a successful stage is not the expected variant. */
  function ResponseTypeError(stageName: string): Error {
    Error("TypeError", "Unexpected response of " + stageName)
  }

  /** The rendered page, through `getStageStateIfSuccessElseThrowError(RENDERER_STAGE_NAME)`. */
  function RenderedPageOf(ps: PipeState<ScrapeResponse>): (r: Result<Page, Error>)
    ensures SuccessStateAt(ps, ByName(RendererStageName)).Failure? ==>
      r == Failure(SuccessStateAt(ps, ByName(RendererStageName)).error)
    ensures r.Success? ==>
      && SuccessStateAt(ps, ByName(RendererStageName)).Success?
      && SuccessStateAt(ps, ByName(RendererStageName)).value ==
           SuccessState(RenderedPage(r.value), SuccessStateAt(ps, ByName(RendererStageName)).value.metadata)
  {
    match SuccessStateAt(ps, ByName(RendererStageName))
    case Failure(e) => Failure(e)
    case Success(st) =>
      if st.SuccessState? && st.response.RenderedPage? then Success(st.response.page)
      else Failure(ResponseTypeError(RendererStageName))
  }

  /** The `opengraph` group: the meta extraction when enabled, else not invoked and empty. */
  function OgGroup(includeOpengraph: bool, metaX: Extracted): TagGroup {
    if includeOpengraph then TagGroup(true, metaX.candidates, metaX.error) else TagGroup(false, [], None)
  }

  /** `img.suppressedError || opengraph.suppressedError`. */
  function Suppressed(img: TagGroup, og: TagGroup): Option<Error> {
    if img.suppressedError.Some? then img.suppressedError else og.suppressedError
  }

  /** The handler's work once it has the page and the configuration, given
      what the two extractors return. */
  function Combine(includeOpengraph: bool, imgX: Extracted, metaX: Extracted): HandlerResult<ScrapeResponse> {
    var img := TagGroup(true, imgX.candidates, imgX.error);
    var og := OgGroup(includeOpengraph, metaX);
    var total := |img.candidates| + |og.candidates|;
    var suppressed := Suppressed(img, og);
    if total == 0 && suppressed.Some? then Throws(AnError(suppressed.value))
    else Returns(SuccessState(ExtractedTags(ExtractorResult(total, img, og)),
                              map["includeOpengraph" := MBool(includeOpengraph)]))
  }

  /** The `EXTRACTOR_STAGE` handler over the pipeline's state and the current `schemaConfig`. */
  function ExtractorHandler(schemaConfig: Option<Config>, lib: UrlLib, ps: PipeState<ScrapeResponse>): HandlerResult<ScrapeResponse> {
    match RenderedPageOf(ps)
    case Failure(e) => Throws(AnError(e))
    case Success(page) =>
      match SchemaConfig(schemaConfig)
      case Failure(e) => Throws(AnError(e))
      case Success(cfg) => Combine(cfg.opengraph, ImgExtraction(lib, page), MetaExtraction(lib, page))
  }

  /** The handler needs a successful renderer stage and a configuration; it
      throws their errors otherwise, the renderer's first. Given both, it
      combines the two extractions of the rendered page. */
  lemma ExtractorNeedsRenderer(schemaConfig: Option<Config>, lib: UrlLib, ps: PipeState<ScrapeResponse>)
    ensures SuccessStateAt(ps, ByName(RendererStageName)).Failure? ==>
      ExtractorHandler(schemaConfig, lib, ps) == Throws(AnError(SuccessStateAt(ps, ByName(RendererStageName)).error))
    ensures RenderedPageOf(ps).Success? && schemaConfig.None? ==>
      ExtractorHandler(schemaConfig, lib, ps) == Throws(AnError(Error("Error", ConfigMissingMessage)))
    ensures RenderedPageOf(ps).Success? && schemaConfig.Some? ==>
      var page := RenderedPageOf(ps).value;
      ExtractorHandler(schemaConfig, lib, ps) ==
        Combine(schemaConfig.value.opengraph, ImgExtraction(lib, page), MetaExtraction(lib, page))
  {
  }

  /** `<img>` results are always taken (`wasInvoked` true), opengraph results
      exactly when enabled, and `totalCandidates` is the sum of both counts;
      the result succeeds with the `includeOpengraph` metadata. */
  lemma CombineSucceeds(includeOpengraph: bool, imgX: Extracted, metaX: Extracted)
    requires Combine(includeOpengraph, imgX, metaX).Returns?
    ensures var st := Combine(includeOpengraph, imgX, metaX).state;
      st.SuccessState? && st.metadata == map["includeOpengraph" := MBool(includeOpengraph)]
      && st.response.ExtractedTags?
      && var x := st.response.extracted;
      x.totalCandidates == |x.img.candidates| + |x.opengraph.candidates|
      && x.img == TagGroup(true, imgX.candidates, imgX.error)
      && x.opengraph.wasInvoked == includeOpengraph
      && (includeOpengraph ==> x.opengraph == TagGroup(true, metaX.candidates, metaX.error))
      && (!includeOpengraph ==> x.opengraph == TagGroup(false, [], None))
  {
  }

  /** The result throws exactly when no candidate was found and an error was
      suppressed, and then it throws the `<img>` error if there is one, else
      the opengraph error; a disabled opengraph extraction contributes nothing. */
  lemma CombineThrowsIff(includeOpengraph: bool, imgX: Extracted, metaX: Extracted)
    ensures var ogCount := if includeOpengraph then |metaX.candidates| else 0;
      var err := if imgX.error.Some? then imgX.error else if includeOpengraph then metaX.error else None;
      var r := Combine(includeOpengraph, imgX, metaX);
      (r.Throws? <==> |imgX.candidates| + ogCount == 0 && err.Some?)
      && (r.Throws? ==> r.thrown == AnError(err.value))
  {
  }
}
