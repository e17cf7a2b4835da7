/** The values the `ppe-scrape` stages exchange: the rendered page and its
    DOM queries, image candidates, the resolved configuration, download and
    probe outcomes, the saved/skipped/failed rows, and the response each
    stage stores in the pipeline. Everything the stages learn from the
    outside world (network, image decoder, digest, file system, clock-free
    randomness) arrives through `Env`. */
module ScrapeTypes {
  import opened Wrappers
  import opened Paths
  import opened Fs

  const ScrapePipeName: string := "SCRAPE_PIPELINE"
  const RendererStageName: string := "RENDERER_STAGE"
  const ExtractorStageName: string := "EXTRACTOR_STAGE"
  const EnsureSrcDirStageName: string := "ENSURE_SRC_DIR"
  const DownloadThenFilterStageName: string := "DOWNLOAD_THEN_FILTER_STAGE"
  const DownloadStageName: string := "DOWNLOAD_STAGE"
  const FiltererStageName: string := "FILTERER_STAGE"
  const AuditLogsStageName: string := "AUDIT_LOGS_STAGE"

  /** The attributes of one element, as cheerio's `attr(name)` sees them. */
  type Attrs = map<string, string>

  function Attr(el: Attrs, name: string): Option<string> {
    if name in el then Some(el[name]) else None
  }

  /** What a selector visits: its elements in document order, and what it
      threw after visiting them, if anything. */
  datatype Query = Query(elements: seq<Attrs>, thrown: Option<Thrown>)

  /** `Required<Page>`: the loaded document is `query`, standing for `$`. */
  datatype Page = Page(url: string, status: int, html: string, text: string, query: string -> Query)

  datatype Source = SrcsetSource | DataSource | HtmlSource | OgSource

  /** The fields of `Candidate` the stages set. */
  datatype Candidate = Candidate(pageUrl: string, srcUrl: string, source: Source, alt: Option<string>, fileNameHint: Option<string>)

  datatype RenderMode = Auto | Html | Headless

  datatype MetaFormat = Csv | Json

  /** The part of `ResolveConfig & {url}` the stages read. `excludeFormats`
      is not a key of the configuration schema, so a validated configuration
      never carries it (`None`). */
  datatype Config = Config(
    url: string,
    topic: string,
    out: string,
    render: RenderMode,
    timeoutMs: int,
    opengraph: bool,
    minWidth: int,
    minHeight: int,
    formats: seq<string>,
    excludeFormats: Option<seq<string>>,
    maxImages: int,
    skipExternalImages: bool,
    folderTemplate: string,
    fileTemplate: string,
    meta: MetaFormat)

  /** The schema defaults, for a given page URL. */
  function DefaultConfig(url: string): (c: Config)
    ensures c.folderTemplate == "{topic}" && c.fileTemplate == "{hash8}.{ext}"
    ensures c.excludeFormats.None? && c.formats == ["jpg", "jpeg", "png", "webp"]
  {
    Config(url, "", ".", Auto, 30000, true, 256, 256, ["jpg", "jpeg", "png", "webp"], None,
           100, false, "{topic}", "{hash8}.{ext}", Csv)
  }

  const ConfigMissingMessage: string :=
    "Expected 'schemaConfig' to be of type ResolveConfig but found undefined.\n                    It might could have happened because 'useScrape' was invoked before running the 'SCRAPE_PIPE'.\n                "

  /** `useScrapePipe().getSchemaConfig()` over the current `schemaConfig`. */
  function SchemaConfig(schemaConfig: Option<Config>): (r: Result<Config, Error>)
    ensures schemaConfig.None? <==> r.Failure?
    ensures r.Failure? ==> r.error == Error("Error", ConfigMissingMessage)
    ensures r.Success? ==> r.value == schemaConfig.value
  {
    match schemaConfig
    case None => Failure(Error("Error", ConfigMissingMessage))
    case Some(c) => Success(c)
  }

  /** What one extractor returns. */
  datatype Extracted = Extracted(candidates: seq<Candidate>, error: Option<Error>)

  datatype TagGroup = TagGroup(wasInvoked: bool, candidates: seq<Candidate>, suppressedError: Option<Error>)

  /** `ReturnTypeExtractorStage`; `extractedTags` iterates `img` then `opengraph`. */
  datatype ExtractorResult = ExtractorResult(totalCandidates: nat, img: TagGroup, opengraph: TagGroup) {
    function Groups(): seq<seq<Candidate>> {
      [img.candidates, opengraph.candidates]
    }
  }

  /** `downloadBinary`'s result (`bytes` is the buffer's length). */
  datatype Download =
    | DownloadOk(buffer: seq<bv8>, mime: Option<string>, finalUrl: string, ms: nat)
    | DownloadFailed(error: Error, reason: string, ms: nat)

  /** The part of `sharp(...).metadata()` the filter reads. */
  datatype ImgMeta = ImgMeta(format: Option<string>, width: Option<int>, height: Option<int>)

  datatype SavedRow = SavedRow(topic: string, candidate: Candidate, ms: nat, hash8: string, ext: string, mime: string, bytes: nat, savedPath: string)

  datatype FailedRow = FailedRow(topic: string, srcUrl: string, ms: Option<nat>, reason: string)

  datatype SkipCode = UnwantedImgFormat | DimensionTooSmall | MaxImgsThresholdExceed | ImgFromExternalOriginNotAllowed

  datatype SkippedRow = SkippedRow(topic: string, srcUrl: string, ms: Option<nat>, reason: string, skipCode: SkipCode)

  /** `ReturnTypeDownloadThenFilterStage`. */
  datatype FilteredDownloads = FilteredDownloads(absSrcDirPath: string, saved: seq<SavedRow>, skipped: seq<SkippedRow>, failed: seq<FailedRow>)

  /** `ReturnTypeDownloadStage`. */
  datatype Downloads = Downloads(absSrcDirPath: string, saved: seq<SavedRow>, failed: seq<FailedRow>)

  /** The response a stage of the scrape pipeline stores, one variant per stage type. */
  datatype ScrapeResponse =
    | RenderedPage(page: Page)
    | ExtractedTags(extracted: ExtractorResult)
    | SrcDir(absSrcDirPath: string)
    | DownloadedThenFiltered(filtered: FilteredDownloads)
    | Downloaded(downloads: Downloads)
    | AuditLogs(absAuditLogsPath: string)

  type Cwd = p: AbsPath | p.Valid() witness AbsPath([])

  type TwoBytes = b: seq<bv8> | |b| == 2 witness [0, 0]

  /** The outside world, fixed for one run: URL parsing, the page fetch,
      per-URL downloads, the image decoder, the SHA-256 digest, the file
      system (`realpath`, `exists`, `mkdir`, `writeFile`; `None` means the call
      did not throw), and the two random bytes of a collision suffix. */
  datatype Env = Env(
    lib: UrlLib,
    cwd: Cwd,
    realpath: string -> Option<string>,
    fetchPage: string -> Result<Page, Thrown>,
    download: string -> Download,
    probe: seq<bv8> -> Result<ImgMeta, Thrown>,
    digest: seq<bv8> -> string,
    pathExists: string -> bool,
    mkdir: string -> Option<Thrown>,
    writeFile: string -> Option<Thrown>,
    collisionBytes: TwoBytes)
}
