/** `ppe-scrape/stages/fs-stages/download.ts`: the `DOWNLOAD_STAGE` handler.
    It downloads and writes every candidate the filterer stage passed on,
    with no filtering: each candidate ends as one saved or failed row. */
module DownloadStage {
  import opened Wrappers
  import opened Ppe
  import opened ScrapeTypes
  import opened ScrapeUtils
  import opened DownloadThenFilter

  /** The `try` block for a downloaded file: write it, then push the row. */
  function WriteRow(cfg: Config, env: Env, acc: Downloads, c: Candidate, row: SavedRow): Downloads {
    match env.writeFile(row.savedPath)
    case Some(t) => acc.(failed := acc.failed + [CaughtRow(cfg.topic, c, acc.absSrcDirPath, t)])
    case None => acc.(saved := acc.saved + [row])
  }

  /** One pass of the loop body. */
  function DownloadStep(cfg: Config, env: Env, acc: Downloads, c: Candidate): Downloads {
    var dl := env.download(c.srcUrl);
    if dl.DownloadFailed? then acc.(failed := acc.failed + [FailedRow(cfg.topic, c.srcUrl, Some(dl.ms), dl.reason)])
    else WriteRow(cfg, env, acc, c, DownloadSavedRow(dl, cfg.topic, cfg.fileTemplate, acc.absSrcDirPath, c, env.digest))
  }

  function DownloadRows(cfg: Config, env: Env, acc: Downloads, cs: seq<Candidate>): Downloads
    decreases |cs|
  {
    if cs == [] then acc
    else DownloadStep(cfg, env, DownloadRows(cfg, env, acc, cs[..|cs| - 1]), cs[|cs| - 1])
  }

  lemma DownloadRowsSnoc(cfg: Config, env: Env, acc: Downloads, cs: seq<Candidate>, c: Candidate)
    ensures DownloadRows(cfg, env, acc, cs + [c]) == DownloadStep(cfg, env, DownloadRows(cfg, env, acc, cs), c)
  {
    assert (cs + [c])[..|cs|] == cs;
  }

  function NoDownloads(absSrcDirPath: string): Downloads {
    Downloads(absSrcDirPath, [], [])
  }

  /** The loop body: download, then in the `try` write and push. */
  method HandleDownload(cfg: Config, env: Env, acc: Downloads, c: Candidate) returns (r: Downloads)
    ensures r == DownloadStep(cfg, env, acc, c)
  {
    r := acc;
    var dwd := env.download(c.srcUrl);
    if dwd.DownloadOk? {
      var savedRow := DownloadSavedRow(dwd, cfg.topic, cfg.fileTemplate, acc.absSrcDirPath, c, env.digest);
      var written := env.writeFile(savedRow.savedPath);
      if written.Some? {
        r := r.(failed := r.failed + [CaughtRow(cfg.topic, c, acc.absSrcDirPath, written.value)]);
      } else {
        r := r.(saved := r.saved + [savedRow]);
      }
    } else {
      r := r.(failed := r.failed + [FailedRow(cfg.topic, c.srcUrl, Some(dwd.ms), dwd.reason)]);
    }
  }

  /** Downloading two runs of candidates one after the other is
      downloading them together. */
  lemma {:induction false} DownloadRowsAppend(cfg: Config, env: Env, acc: Downloads, xs: seq<Candidate>, ys: seq<Candidate>)
    ensures DownloadRows(cfg, env, acc, xs + ys) == DownloadRows(cfg, env, DownloadRows(cfg, env, acc, xs), ys)
    decreases |ys|
  {
    if ys == [] {
      assert xs + ys == xs;
    } else {
      var last := ys[|ys| - 1];
      var init := ys[..|ys| - 1];
      assert ys == init + [last];
      assert xs + ys == (xs + init) + [last];
      DownloadRowsSnoc(cfg, env, acc, xs + init, last);
      DownloadRowsAppend(cfg, env, acc, xs, init);
      DownloadRowsSnoc(cfg, env, DownloadRows(cfg, env, acc, xs), init, last);
    }
  }

  /** The inner `for (candidate of candidates)`. */
  method DownloadGroup(cfg: Config, env: Env, acc: Downloads, candidates: seq<Candidate>) returns (r: Downloads)
    ensures r == DownloadRows(cfg, env, acc, candidates)
  {
    r := acc;
    var i := 0;
    while i < |candidates|
      invariant 0 <= i <= |candidates|
      invariant r == DownloadRows(cfg, env, acc, candidates[..i])
    {
      DownloadRowsSnoc(cfg, env, acc, candidates[..i], candidates[i]);
      r := HandleDownload(cfg, env, r, candidates[i]);
      assert candidates[..i + 1] == candidates[..i] + [candidates[i]];
      i := i + 1;
    }
    assert candidates[..i] == candidates;
  }

  /** The two nested loops over the groups. */
  method DownloadEach(cfg: Config, env: Env, absSrcDirPath: string, groups: seq<seq<Candidate>>) returns (r: Downloads)
    ensures r == DownloadRows(cfg, env, NoDownloads(absSrcDirPath), Flatten(groups))
  {
    r := NoDownloads(absSrcDirPath);
    var g := 0;
    while g < |groups|
      invariant 0 <= g <= |groups|
      invariant r == DownloadRows(cfg, env, NoDownloads(absSrcDirPath), Flatten(groups[..g]))
    {
      DownloadRowsAppend(cfg, env, NoDownloads(absSrcDirPath), Flatten(groups[..g]), groups[g]);
      FlattenSnoc(groups, g);
      r := DownloadGroup(cfg, env, r, groups[g]);
      g := g + 1;
    }
    assert groups[..g] == groups;
  }

  /** The `DOWNLOAD_STAGE` handler: it reads `ENSURE_SRC_DIR` and `FILTERER_STAGE`. */
  function DownloadHandler(schemaConfig: Option<Config>, env: Env, ps: PipeState<ScrapeResponse>): HandlerResult<ScrapeResponse> {
    match SuccessStateAt(ps, ByName(EnsureSrcDirStageName))
    case Failure(e) => Throws(AnError(e))
    case Success(dirSt) =>
      if !(dirSt.SuccessState? && dirSt.response.SrcDir?) then Throws(AnError(Error("TypeError", "Unexpected response of " + EnsureSrcDirStageName)))
      else
        match SuccessStateAt(ps, ByName(FiltererStageName))
        case Failure(e) => Throws(AnError(e))
        case Success(fSt) =>
          if !(fSt.SuccessState? && fSt.response.ExtractedTags?) then Throws(AnError(Error("TypeError", "Unexpected response of " + FiltererStageName)))
          else
            match SchemaConfig(schemaConfig)
            case Failure(e) => Throws(AnError(e))
            case Success(cfg) =>
              var abs := dirSt.response.absSrcDirPath;
              Returns(SuccessState(Downloaded(
                DownloadRows(cfg, env, Downloads(abs, [], []), AllCandidates(fSt.response.extracted))), map[]))
  }

  /** A successful download becomes a saved row once written, or a failed
      row with the write error's message; a failed download is a failed row
      with its transport reason and time. */
  lemma DownloadStepRows(cfg: Config, env: Env, acc: Downloads, c: Candidate)
    ensures var dl := env.download(c.srcUrl);
      var r := DownloadStep(cfg, env, acc, c);
      (dl.DownloadFailed? ==> r == acc.(failed := acc.failed + [FailedRow(cfg.topic, c.srcUrl, Some(dl.ms), dl.reason)]))
      && (dl.DownloadOk? ==>
            var row := DownloadSavedRow(dl, cfg.topic, cfg.fileTemplate, acc.absSrcDirPath, c, env.digest);
            (env.writeFile(row.savedPath).None? ==> r == acc.(saved := acc.saved + [row]))
            && (env.writeFile(row.savedPath).Some? && env.writeFile(row.savedPath).value.AnError? ==>
                  r == acc.(failed := acc.failed + [FailedRow(cfg.topic, c.srcUrl, None, env.writeFile(row.savedPath).value.error.message)])))
  {
  }

  /** Every candidate adds exactly one row, to saved or to failed; earlier
      rows are kept; every added saved row was written. */
  lemma {:induction false} DownloadRowsCount(cfg: Config, env: Env, acc: Downloads, cs: seq<Candidate>)
    ensures var r := DownloadRows(cfg, env, acc, cs);
      r.absSrcDirPath == acc.absSrcDirPath && acc.saved <= r.saved && acc.failed <= r.failed
      && |r.saved| + |r.failed| == |acc.saved| + |acc.failed| + |cs|
      && (forall i :: |acc.saved| <= i < |r.saved| ==> env.writeFile(r.saved[i].savedPath).None?)
    decreases |cs|
  {
    if cs != [] {
      var prev := DownloadRows(cfg, env, acc, cs[..|cs| - 1]);
      DownloadRowsCount(cfg, env, acc, cs[..|cs| - 1]);
      DownloadStepRows(cfg, env, prev, cs[|cs| - 1]);
    }
  }

  /** The handler needs `ENSURE_SRC_DIR` and `FILTERER_STAGE` to have
      succeeded, throwing the first lookup error otherwise; with both and a
      configuration it always succeeds, passing the folder through, with one
      row per candidate. */
  lemma DownloadHandlerOutcome(schemaConfig: Option<Config>, env: Env, ps: PipeState<ScrapeResponse>)
    ensures SuccessStateAt(ps, ByName(EnsureSrcDirStageName)).Failure? ==>
      DownloadHandler(schemaConfig, env, ps) == Throws(AnError(SuccessStateAt(ps, ByName(EnsureSrcDirStageName)).error))
    ensures (SuccessStateAt(ps, ByName(EnsureSrcDirStageName)).Success?
      && SuccessStateAt(ps, ByName(EnsureSrcDirStageName)).value.response.SrcDir?
      && SuccessStateAt(ps, ByName(FiltererStageName)).Failure?) ==>
      DownloadHandler(schemaConfig, env, ps) == Throws(AnError(SuccessStateAt(ps, ByName(FiltererStageName)).error))
    ensures (schemaConfig.Some?
      && SuccessStateAt(ps, ByName(EnsureSrcDirStageName)).Success?
      && SuccessStateAt(ps, ByName(EnsureSrcDirStageName)).value.response.SrcDir?
      && SuccessStateAt(ps, ByName(FiltererStageName)).Success?
      && SuccessStateAt(ps, ByName(FiltererStageName)).value.response.ExtractedTags?) ==>
      var h := DownloadHandler(schemaConfig, env, ps);
      var abs := SuccessStateAt(ps, ByName(EnsureSrcDirStageName)).value.response.absSrcDirPath;
      var x := SuccessStateAt(ps, ByName(FiltererStageName)).value.response.extracted;
      h.Returns? && h.state.SuccessState? && h.state.response.Downloaded?
      && h.state.response.downloads.absSrcDirPath == abs
      && |h.state.response.downloads.saved| + |h.state.response.downloads.failed| == |AllCandidates(x)|
  {
    if schemaConfig.Some?
      && SuccessStateAt(ps, ByName(EnsureSrcDirStageName)).Success?
      && SuccessStateAt(ps, ByName(EnsureSrcDirStageName)).value.response.SrcDir?
      && SuccessStateAt(ps, ByName(FiltererStageName)).Success?
      && SuccessStateAt(ps, ByName(FiltererStageName)).value.response.ExtractedTags? {
      var abs := SuccessStateAt(ps, ByName(EnsureSrcDirStageName)).value.response.absSrcDirPath;
      var x := SuccessStateAt(ps, ByName(FiltererStageName)).value.response.extracted;
      DownloadRowsCount(schemaConfig.value, env, Downloads(abs, [], []), AllCandidates(x));
    }
  }
}
