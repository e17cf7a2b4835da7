/** `ppe-scrape/stages/fs-stages/download-then-filter.ts`: the
    `DOWNLOAD_THEN_FILTER_STAGE` handler. Every candidate, `<img>` group
    first, goes through a first-match chain (cap, origin, transport, format,
    dimensions) and is then written; it ends as exactly one saved, skipped
    or failed row. */
module DownloadThenFilter {
  import opened Wrappers
  import opened JsString
  import opened Fs
  import opened Ppe
  import opened ScrapeTypes
  import opened ScrapeUtils

  /** The timeout every download is given (`DOWNLOAD_MAX_TIMEOUT_MS`); the
      download itself is `env.download`. */
  const DownloadMaxTimeoutMs: nat := 10 * 1000

  /** What `processDownloadButNotSaveFile` resolves to. */
  datatype Entry =
    | EntrySaved(saved: SavedRow, buffer: seq<bv8>)
    | EntrySkipped(skipped: SkippedRow)
    | EntryFailed(failed: FailedRow)

  /** It resolves to an entry or rejects with what was thrown. */
  datatype Processed = Done(entry: Entry) | Raised(thrown: Thrown)

  function MaxReason(maxImages: int): string {
    "Skipped because limit on maxIMages of " + IntToString(maxImages) + " has been exceeded."
  }

  function OriginReason(srcUrl: string, url: string): string {
    "Image's srcUrl('" + srcUrl + "')'s origin is different from the origin of '" + url + "'"
  }

  /** A template literal's rendering of an optional value. */
  function Shown(o: Option<string>): string {
    match o
    case Some(s) => s
    case None => "undefined"
  }

  function ShownInt(o: Option<int>): string {
    match o
    case Some(n) => IntToString(n)
    case None => "undefined"
  }

  function FormatReason(format: Option<string>): string {
    "Expected img format not to be type of " + Shown(format)
  }

  function DimensionReason(meta: ImgMeta, minWidth: int, minHeight: int): string {
    "Image dimension not satisfies min constraints " + ShownInt(meta.width) + ":" + ShownInt(meta.height)
    + " < " + IntToString(minWidth) + ":" + IntToString(minHeight)
  }

  /** What `excludeFormats.includes(...)` throws when `excludeFormats` is undefined. */
  const ExcludeFormatsUndefined: Error := Error("TypeError", "Cannot read properties of undefined (reading 'includes')")

  /** `excludeFormats.includes(format) || ['*', format].every(f => !formats.includes(f))`
      (an undefined format is in neither list). */
  predicate Unwanted(formats: seq<string>, excludeFormats: seq<string>, format: Option<string>) {
    (format.Some? && format.value in excludeFormats)
    || ("*" !in formats && (format.None? || format.value !in formats))
  }

  /** `width < minWidth || height < minHeight`; an undefined side compares false. */
  predicate TooSmall(meta: ImgMeta, minWidth: int, minHeight: int) {
    (meta.width.Some? && meta.width.value < minWidth) || (meta.height.Some? && meta.height.value < minHeight)
  }

  /** The checks on a downloaded and probed image, then the saved row. With
      `asWritten`, an undefined `excludeFormats` throws, as the source does;
      otherwise it counts as empty. */
  function Judge(cfg: Config, absSrcDirPath: string, c: Candidate, dl: Download, meta: ImgMeta,
                 digest: seq<bv8> -> string, asWritten: bool): Processed
    requires dl.DownloadOk?
  {
    if asWritten && cfg.excludeFormats.None? then Raised(AnError(ExcludeFormatsUndefined))
    else if Unwanted(cfg.formats, cfg.excludeFormats.GetOr([]), meta.format) then
      Done(EntrySkipped(SkippedRow(cfg.topic, c.srcUrl, Some(dl.ms), FormatReason(meta.format), UnwantedImgFormat)))
    else if TooSmall(meta, cfg.minWidth, cfg.minHeight) then
      Done(EntrySkipped(SkippedRow(cfg.topic, c.srcUrl, Some(dl.ms), DimensionReason(meta, cfg.minWidth, cfg.minHeight), DimensionTooSmall)))
    else
      Done(EntrySaved(DownloadSavedRow(dl, cfg.topic, cfg.fileTemplate, absSrcDirPath, c, digest), dl.buffer))
  }

  /** `processDownloadButNotSaveFile(candidate, {absSrcDirPath, savedImages})`. */
  function Process(cfg: Config, env: Env, absSrcDirPath: string, c: Candidate, savedImages: nat, asWritten: bool): Processed {
    if savedImages >= cfg.maxImages then
      Done(EntrySkipped(SkippedRow(cfg.topic, c.srcUrl, None, MaxReason(cfg.maxImages), MaxImgsThresholdExceed)))
    else if cfg.skipExternalImages && !SameOrigin(env.lib, cfg.url, c.srcUrl) then
      Done(EntrySkipped(SkippedRow(cfg.topic, c.srcUrl, None, OriginReason(c.srcUrl, cfg.url), ImgFromExternalOriginNotAllowed)))
    else
      var dl := env.download(c.srcUrl);
      match dl
      case DownloadFailed(_, reason, ms) => Done(EntryFailed(FailedRow(cfg.topic, c.srcUrl, Some(ms), reason)))
      case DownloadOk(buffer, _, _, _) =>
        match env.probe(buffer)
        case Failure(t) => Raised(t)
        case Success(meta) => Judge(cfg, absSrcDirPath, c, dl, meta, env.digest, asWritten)
  }

  /** The row the loop's `catch` records. */
  function CaughtRow(topic: string, c: Candidate, absSrcDirPath: string, t: Thrown): FailedRow {
    var reason := match t
      case AnError(e) => e.message
      case NotAnError =>
        "An unknown error while downloading and writing resource from \"" + c.srcUrl + "\" to \"" + absSrcDirPath + "\"";
    FailedRow(topic, c.srcUrl, None, reason)
  }

  /** One pass of the loop body: process, write a saved entry, record the row. */
  function Step(cfg: Config, env: Env, acc: FilteredDownloads, c: Candidate, asWritten: bool): FilteredDownloads {
    match Process(cfg, env, acc.absSrcDirPath, c, |acc.saved|, asWritten)
    case Raised(t) => acc.(failed := acc.failed + [CaughtRow(cfg.topic, c, acc.absSrcDirPath, t)])
    case Done(EntrySaved(row, _)) =>
      (match env.writeFile(row.savedPath)
       case Some(t) => acc.(failed := acc.failed + [CaughtRow(cfg.topic, c, acc.absSrcDirPath, t)])
       case None => acc.(saved := acc.saved + [row]))
    case Done(EntrySkipped(row)) => acc.(skipped := acc.skipped + [row])
    case Done(EntryFailed(row)) => acc.(failed := acc.failed + [row])
  }

  /** The loop over a list of candidates, from the rows so far. */
  function Materialize(cfg: Config, env: Env, acc: FilteredDownloads, cs: seq<Candidate>, asWritten: bool): FilteredDownloads
    decreases |cs|
  {
    if cs == [] then acc
    else Step(cfg, env, Materialize(cfg, env, acc, cs[..|cs| - 1], asWritten), cs[|cs| - 1], asWritten)
  }

  function Flatten(groups: seq<seq<Candidate>>): seq<Candidate>
    decreases |groups|
  {
    if groups == [] then [] else Flatten(groups[..|groups| - 1]) + groups[|groups| - 1]
  }

  function NoRows(absSrcDirPath: string): FilteredDownloads {
    FilteredDownloads(absSrcDirPath, [], [], [])
  }

  lemma MaterializeSnoc(cfg: Config, env: Env, acc: FilteredDownloads, cs: seq<Candidate>, c: Candidate, asWritten: bool)
    ensures Materialize(cfg, env, acc, cs + [c], asWritten) == Step(cfg, env, Materialize(cfg, env, acc, cs, asWritten), c, asWritten)
  {
    assert (cs + [c])[..|cs|] == cs;
  }

  lemma FlattenSnoc(groups: seq<seq<Candidate>>, g: nat)
    requires g < |groups|
    ensures Flatten(groups[..g + 1]) == Flatten(groups[..g]) + groups[g]
  {
    assert groups[..g + 1][..g] == groups[..g];
  }

  /** The loop body: the `try` around processing, writing and pushing. */
  method HandleCandidate(cfg: Config, env: Env, acc: FilteredDownloads, c: Candidate, asWritten: bool)
    returns (r: FilteredDownloads)
    ensures r == Step(cfg, env, acc, c, asWritten)
  {
    r := acc;
    var entry := Process(cfg, env, acc.absSrcDirPath, c, |acc.saved|, asWritten);
    if entry.Raised? {
      r := r.(failed := r.failed + [CaughtRow(cfg.topic, c, acc.absSrcDirPath, entry.thrown)]);
    } else if entry.entry.EntrySaved? {
      var written := env.writeFile(entry.entry.saved.savedPath);
      if written.Some? {
        r := r.(failed := r.failed + [CaughtRow(cfg.topic, c, acc.absSrcDirPath, written.value)]);
      } else {
        r := r.(saved := r.saved + [entry.entry.saved]);
      }
    } else if entry.entry.EntrySkipped? {
      r := r.(skipped := r.skipped + [entry.entry.skipped]);
    } else {
      r := r.(failed := r.failed + [entry.entry.failed]);
    }
  }

  /** Processing two runs of candidates one after the other is processing
      them together. */
  lemma {:induction false} MaterializeAppend(cfg: Config, env: Env, acc: FilteredDownloads, xs: seq<Candidate>, ys: seq<Candidate>, asWritten: bool)
    ensures Materialize(cfg, env, acc, xs + ys, asWritten)
      == Materialize(cfg, env, Materialize(cfg, env, acc, xs, asWritten), ys, asWritten)
    decreases |ys|
  {
    if ys == [] {
      assert xs + ys == xs;
    } else {
      var last := ys[|ys| - 1];
      var init := ys[..|ys| - 1];
      assert ys == init + [last];
      assert xs + ys == (xs + init) + [last];
      MaterializeSnoc(cfg, env, acc, xs + init, last, asWritten);
      MaterializeAppend(cfg, env, acc, xs, init, asWritten);
      MaterializeSnoc(cfg, env, Materialize(cfg, env, acc, xs, asWritten), init, last, asWritten);
    }
  }

  /** The inner `for (candidate of candidates)`. */
  method DownloadGroup(cfg: Config, env: Env, acc: FilteredDownloads, candidates: seq<Candidate>, asWritten: bool)
    returns (r: FilteredDownloads)
    ensures r == Materialize(cfg, env, acc, candidates, asWritten)
  {
    r := acc;
    var i := 0;
    while i < |candidates|
      invariant 0 <= i <= |candidates|
      invariant r == Materialize(cfg, env, acc, candidates[..i], asWritten)
    {
      MaterializeSnoc(cfg, env, acc, candidates[..i], candidates[i], asWritten);
      r := HandleCandidate(cfg, env, r, candidates[i], asWritten);
      assert candidates[..i + 1] == candidates[..i] + [candidates[i]];
      i := i + 1;
    }
    assert candidates[..i] == candidates;
  }

  /** `for (htmlTag in extractedTags) for (candidate of candidates) ...`. */
  method DownloadAll(cfg: Config, env: Env, absSrcDirPath: string, groups: seq<seq<Candidate>>, asWritten: bool)
    returns (r: FilteredDownloads)
    ensures r == Materialize(cfg, env, NoRows(absSrcDirPath), Flatten(groups), asWritten)
  {
    r := NoRows(absSrcDirPath);
    var g := 0;
    while g < |groups|
      invariant 0 <= g <= |groups|
      invariant r == Materialize(cfg, env, NoRows(absSrcDirPath), Flatten(groups[..g]), asWritten)
    {
      MaterializeAppend(cfg, env, NoRows(absSrcDirPath), Flatten(groups[..g]), groups[g], asWritten);
      FlattenSnoc(groups, g);
      r := DownloadGroup(cfg, env, r, groups[g], asWritten);
      g := g + 1;
    }
    assert groups[..g] == groups;
  }

  /** The candidates in loop order: `<img>` first, then opengraph. */
  function AllCandidates(x: ExtractorResult): seq<Candidate> {
    Flatten(x.Groups())
  }

  /** The `DOWNLOAD_THEN_FILTER_STAGE` handler. */
  function DownloadThenFilterHandler(schemaConfig: Option<Config>, env: Env, ps: PipeState<ScrapeResponse>, asWritten: bool)
    : HandlerResult<ScrapeResponse>
  {
    match SuccessStateAt(ps, ByName(EnsureSrcDirStageName))
    case Failure(e) => Throws(AnError(e))
    case Success(dirSt) =>
      if !(dirSt.SuccessState? && dirSt.response.SrcDir?) then Throws(AnError(Error("TypeError", "Unexpected response of " + EnsureSrcDirStageName)))
      else
        match SuccessStateAt(ps, ByName(ExtractorStageName))
        case Failure(e) => Throws(AnError(e))
        case Success(xSt) =>
          if !(xSt.SuccessState? && xSt.response.ExtractedTags?) then Throws(AnError(Error("TypeError", "Unexpected response of " + ExtractorStageName)))
          else
            match SchemaConfig(schemaConfig)
            case Failure(e) => Throws(AnError(e))
            case Success(cfg) =>
              var abs := dirSt.response.absSrcDirPath;
              Returns(SuccessState(DownloadedThenFiltered(
                Materialize(cfg, env, NoRows(abs), AllCandidates(xSt.response.extracted), asWritten)), map[]))
  }

  // ---------------------------------------------------------------------
  // The decision chain

  /** The cap comes first: at or over `maxImages` the candidate is skipped
      before the origin check and before any download. */
  lemma CapSkipsFirst(cfg: Config, env: Env, absSrcDirPath: string, c: Candidate, savedImages: nat, asWritten: bool)
    requires savedImages >= cfg.maxImages
    ensures Process(cfg, env, absSrcDirPath, c, savedImages, asWritten)
         == Done(EntrySkipped(SkippedRow(cfg.topic, c.srcUrl, None, MaxReason(cfg.maxImages), MaxImgsThresholdExceed)))
  {
  }

  /** Under the cap, a foreign origin is skipped without a download when
      external images are refused. */
  lemma ForeignOriginSkipped(cfg: Config, env: Env, absSrcDirPath: string, c: Candidate, savedImages: nat, asWritten: bool)
    requires savedImages < cfg.maxImages && cfg.skipExternalImages && !SameOrigin(env.lib, cfg.url, c.srcUrl)
    ensures Process(cfg, env, absSrcDirPath, c, savedImages, asWritten)
         == Done(EntrySkipped(SkippedRow(cfg.topic, c.srcUrl, None, OriginReason(c.srcUrl, cfg.url), ImgFromExternalOriginNotAllowed)))
  {
  }

  /** Past both, a failed download is a failed row with its reason and time,
      and a probe that throws rejects. */
  lemma DownloadOutcome(cfg: Config, env: Env, absSrcDirPath: string, c: Candidate, savedImages: nat, asWritten: bool)
    requires savedImages < cfg.maxImages && !(cfg.skipExternalImages && !SameOrigin(env.lib, cfg.url, c.srcUrl))
    ensures var dl := env.download(c.srcUrl);
      dl.DownloadFailed? ==>
        Process(cfg, env, absSrcDirPath, c, savedImages, asWritten)
        == Done(EntryFailed(FailedRow(cfg.topic, c.srcUrl, Some(dl.ms), dl.reason)))
    ensures var dl := env.download(c.srcUrl);
      dl.DownloadOk? && env.probe(dl.buffer).Failure? ==>
        Process(cfg, env, absSrcDirPath, c, savedImages, asWritten) == Raised(env.probe(dl.buffer).error)
    ensures var dl := env.download(c.srcUrl);
      dl.DownloadOk? && env.probe(dl.buffer).Success? ==>
        Process(cfg, env, absSrcDirPath, c, savedImages, asWritten)
        == Judge(cfg, absSrcDirPath, c, dl, env.probe(dl.buffer).value, env.digest, asWritten)
  {
  }

  /** The format check comes before the dimension check, and an image that
      passes both becomes a saved entry carrying its buffer. */
  lemma JudgeOrder(cfg: Config, absSrcDirPath: string, c: Candidate, dl: Download, meta: ImgMeta,
                   digest: seq<bv8> -> string, asWritten: bool)
    requires dl.DownloadOk? && (cfg.excludeFormats.Some? || !asWritten)
    ensures var j := Judge(cfg, absSrcDirPath, c, dl, meta, digest, asWritten);
      var unwanted := Unwanted(cfg.formats, cfg.excludeFormats.GetOr([]), meta.format);
      var small := TooSmall(meta, cfg.minWidth, cfg.minHeight);
      (unwanted ==> j.Done? && j.entry.EntrySkipped? && j.entry.skipped.skipCode == UnwantedImgFormat)
      && (!unwanted && small ==> j.Done? && j.entry.EntrySkipped? && j.entry.skipped.skipCode == DimensionTooSmall)
      && (!unwanted && !small ==>
            j == Done(EntrySaved(DownloadSavedRow(dl, cfg.topic, cfg.fileTemplate, absSrcDirPath, c, digest), dl.buffer)))
  {
  }

  /** A format is wanted exactly when it is not excluded and `formats` lists
      it or `*`. */
  lemma UnwantedIff(formats: seq<string>, excludeFormats: seq<string>, format: string)
    ensures !Unwanted(formats, excludeFormats, Some(format)) <==>
      format !in excludeFormats && ("*" in formats || format in formats)
  {
  }

  // ---------------------------------------------------------------------
  // The loop

  /** One step adds exactly one row to exactly one list and keeps the rest;
      a row is saved only under the cap and after its write succeeded. */
  lemma StepOneRow(cfg: Config, env: Env, acc: FilteredDownloads, c: Candidate, asWritten: bool)
    ensures var r := Step(cfg, env, acc, c, asWritten);
      r.absSrcDirPath == acc.absSrcDirPath
      && acc.saved <= r.saved && acc.skipped <= r.skipped && acc.failed <= r.failed
      && |r.saved| + |r.skipped| + |r.failed| == |acc.saved| + |acc.skipped| + |acc.failed| + 1
      && (|r.saved| > |acc.saved| ==>
            |acc.saved| < cfg.maxImages && env.writeFile(r.saved[|acc.saved|].savedPath).None?)
  {
  }

  /** Every candidate adds exactly one row, earlier rows are kept, every row
      added to `saved` was written, and the loop never pushes `saved` past
      `maxImages` once it has reached it. */
  lemma {:induction false} MaterializeRows(cfg: Config, env: Env, acc: FilteredDownloads, cs: seq<Candidate>, asWritten: bool)
    ensures var r := Materialize(cfg, env, acc, cs, asWritten);
      r.absSrcDirPath == acc.absSrcDirPath
      && acc.saved <= r.saved && acc.skipped <= r.skipped && acc.failed <= r.failed
      && |r.saved| + |r.skipped| + |r.failed| == |acc.saved| + |acc.skipped| + |acc.failed| + |cs|
      && (forall i :: |acc.saved| <= i < |r.saved| ==> env.writeFile(r.saved[i].savedPath).None?)
      && (|acc.saved| <= cfg.maxImages ==> |r.saved| <= cfg.maxImages)
      && (|acc.saved| >= cfg.maxImages ==> |r.saved| == |acc.saved|)
    decreases |cs|
  {
    if cs != [] {
      var prev := Materialize(cfg, env, acc, cs[..|cs| - 1], asWritten);
      MaterializeRows(cfg, env, acc, cs[..|cs| - 1], asWritten);
      StepOneRow(cfg, env, prev, cs[|cs| - 1], asWritten);
    }
  }

  /** From no rows, the saved count stays within `maxImages` (none at all for
      a cap of zero or less), and the three lists together hold one row per
      candidate. */
  lemma DownloadAllBounds(cfg: Config, env: Env, absSrcDirPath: string, cs: seq<Candidate>, asWritten: bool)
    ensures var r := Materialize(cfg, env, NoRows(absSrcDirPath), cs, asWritten);
      |r.saved| + |r.skipped| + |r.failed| == |cs|
      && r.absSrcDirPath == absSrcDirPath
      && |r.saved| <= (if cfg.maxImages < 0 then 0 else cfg.maxImages)
  {
    MaterializeRows(cfg, env, NoRows(absSrcDirPath), cs, asWritten);
  }

  /** Given its two lookups and the configuration, the stage always succeeds,
      with the source folder passed through. */
  lemma HandlerSucceeds(schemaConfig: Option<Config>, env: Env, ps: PipeState<ScrapeResponse>, asWritten: bool)
    requires schemaConfig.Some?
    requires SuccessStateAt(ps, ByName(EnsureSrcDirStageName)).Success?
    requires SuccessStateAt(ps, ByName(EnsureSrcDirStageName)).value.response.SrcDir?
    requires SuccessStateAt(ps, ByName(ExtractorStageName)).Success?
    requires SuccessStateAt(ps, ByName(ExtractorStageName)).value.response.ExtractedTags?
    ensures var h := DownloadThenFilterHandler(schemaConfig, env, ps, asWritten);
      h.Returns? && h.state.SuccessState? && h.state.metadata == map[]
      && h.state.response.DownloadedThenFiltered?
      && h.state.response.filtered.absSrcDirPath
         == SuccessStateAt(ps, ByName(EnsureSrcDirStageName)).value.response.absSrcDirPath
  {
    var abs := SuccessStateAt(ps, ByName(EnsureSrcDirStageName)).value.response.absSrcDirPath;
    var x := SuccessStateAt(ps, ByName(ExtractorStageName)).value.response.extracted;
    MaterializeRows(schemaConfig.value, env, NoRows(abs), AllCandidates(x), asWritten);
  }

  // ---------------------------------------------------------------------
  // excludeFormats

  /** As written, a configuration without `excludeFormats` (every validated
      one) turns each downloaded and probed image into a failed row with the
      `TypeError` message, so the stage never saves anything. */
  lemma {:induction false} AsWrittenSavesNothing(cfg: Config, env: Env, acc: FilteredDownloads, cs: seq<Candidate>)
    requires cfg.excludeFormats.None?
    ensures Materialize(cfg, env, acc, cs, true).saved == acc.saved
    decreases |cs|
  {
    if cs != [] {
      AsWrittenSavesNothing(cfg, env, acc, cs[..|cs| - 1]);
    }
  }

  /** As intended, the same configuration saves an image that passes every
      check once it is written; as written, that image is a failed row. */
  lemma IntendedSavesPassing(cfg: Config, env: Env, acc: FilteredDownloads, c: Candidate)
    requires cfg.excludeFormats.None?
    requires |acc.saved| < cfg.maxImages && !(cfg.skipExternalImages && !SameOrigin(env.lib, cfg.url, c.srcUrl))
    requires env.download(c.srcUrl).DownloadOk? && env.probe(env.download(c.srcUrl).buffer).Success?
    requires var meta := env.probe(env.download(c.srcUrl).buffer).value;
      !Unwanted(cfg.formats, [], meta.format) && !TooSmall(meta, cfg.minWidth, cfg.minHeight)
    requires var row := DownloadSavedRow(env.download(c.srcUrl), cfg.topic, cfg.fileTemplate, acc.absSrcDirPath, c, env.digest);
      env.writeFile(row.savedPath).None?
    ensures Step(cfg, env, acc, c, false).saved
         == acc.saved + [DownloadSavedRow(env.download(c.srcUrl), cfg.topic, cfg.fileTemplate, acc.absSrcDirPath, c, env.digest)]
    ensures Step(cfg, env, acc, c, true)
         == acc.(failed := acc.failed + [FailedRow(cfg.topic, c.srcUrl, None, ExcludeFormatsUndefined.message)])
  {
  }
}
