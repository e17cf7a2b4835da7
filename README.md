# pevia scraping core, modelled in Dafny

This project models the core of the `pevia` image scraper in Dafny and proves properties of the model.

**The `ppe.ts` stage-graph engine.** The engine is the `Pipeline` class of `util/ppe.ts`. It keeps:
- an ordered list of stages and a name-to-index map;
- the indices of the "must" stages;
- a flag recording that a `from*` call was made;
- one statistics bucket per status.

Its rules:
- The first stage is attached with `from*`, and only once.
- Stage names are unique.
- `onlyThen*` gates a stage on the stage pushed just before it.
- An independent stage waits for the latest must stage.
- A failed gate skips the stage without running its handler.
- A handler that throws leaves its stage `failed`.
- `finish()` counts the stages by status.

In the model, the engine is the class `Ppe.Pipeline`. The rules are stated over a value of its state (`PipeState`), and every method is proved against the function that computes that value. `ValidState` bundles these invariants:
- every stage's index is its position;
- the name map indexes exactly the stages;
- every dependency points to an earlier stage and gates on it;
- must stages are listed in order;
- no stage name is an `Object.prototype` key.

**The scrape pipeline.** `ScrapeRun.ScrapeRunner` models the module variable `schemaConfig` of `ppe-scrape/run.ts` together with the singleton `SCRAPE_PIPELINE`. `run` attaches five stages:
1. the renderer;
2. the extractor;
3. the source-folder stage;
4. download-then-filter, with the corrected format filter of the third row under Findings;
5. the audit log.

Their handlers are functions of the pipeline state:
- `ExtractorStage`, `ExtractorUtils` (the `srcset` pick, attribute priority, de-duplication and file-name hints, over the `<img>`/`<meta>` elements as attribute lists);
- `SrcFolder`;
- `DownloadThenFilter` (the first-match decision chain and the per-candidate loop);
- `DownloadStage` (the `DOWNLOAD_STAGE` handler);
- the audit handler in `ScrapeRun`.

**The utilities.**
- `ScrapeUtils`: `ppe-scrape/utils.ts`.
- `Fs`: `util/fs.ts`.
- `Crypt`: `util/crypt.ts`.
- `Funcs`: `util/funcs.ts`.
- `ConfigLoader`: the deep merge and `prune` of `config/loader.ts`.
- `Auxil`: the row builders, templates, CSV encoding and history-file selection of the older `scrape/stages/fs-manager/auxil.ts`.
- `LegacyPipeline`: the older payload pipeline of `util/pipeline.ts`.

Helper modules:
- `JsString`: the JavaScript string operations used (`trim`, `split`, `indexOf`, `replace` with a string or a `{word}` pattern, `toString('hex')`).
- `Paths`: POSIX `path.resolve`, `path.relative`, `path.join` and `path.normalize` on segment sequences.
- `Wrappers`: `Option` and `Result`.

**What the model takes as parameters.** The network, the clock, randomness, the file system, `sharp`, `sha256` and URL parsing are all parameters:
- `Env` holds the download, image-probe, write, `mkdir`, `exists` and random-byte functions.
- `UrlLib` holds the `new URL` parse and resolve.

A download is an outcome value, and a thrown exception is a `Thrown` value. The asynchronous engine methods are the synchronous ones with a `flavor` tag, because each handler is awaited before the next call.

## Model

| member | source | states |
|---|---|---|
| `Ppe.EmptyPipeValid` | packages/pevia/src/util/ppe.ts:87-105 | A new pipeline has no stages, satisfies the structure invariant and has no must stage that could block. |
| `Ppe.Pipeline.constructor` | packages/pevia/src/util/ppe.ts:87-105 | `createPipe` starts with no stages, an empty index map, no must stages, `isFromInvoked` false and empty buckets. |
| `Ppe.CreatePipe` | packages/pevia/src/util/ppe.ts:490-494 | `createPipe(name).whatDoesPipeDo(desc)` yields a fresh valid pipeline with that name and description. |
| `Ppe.Pipeline.NewStage` | packages/pevia/src/util/ppe.ts:441-487 | `createStage(...).handledBy(...)` yields an independent stage of that name, not yet run, whose unset reason names the stage and the pipeline. |
| `Ppe.StageAtIndex` | packages/pevia/src/util/ppe.ts:111-123 | A lookup by index succeeds exactly for the indices in use; any other index raises the "not yet have stage" error. |
| `Ppe.StageAtName` | packages/pevia/src/util/ppe.ts:111-123 | A lookup by name finds the stage carrying that name, and fails exactly when no stage carries it. |
| `Ppe.Pipeline.GetStage` | packages/pevia/src/util/ppe.ts:111-123 | `getStage` returns the looked-up stage as a value (a copy) or the lookup error, and leaves the pipeline unchanged. |
| `Ppe.Pipeline.GetStageState` | packages/pevia/src/util/ppe.ts:124-126 | `getStageState` returns the state of the looked-up stage, or the lookup error. |
| `Ppe.SuccessStateAtFails` | packages/pevia/src/util/ppe.ts:128-134 | The success-only accessor fails unless the stage exists and its status is `success`. Otherwise it returns that stage's state. |
| `Ppe.Pipeline.GetStageStateIfSuccess` | packages/pevia/src/util/ppe.ts:128-134 | `getStageStateIfSuccessElseThrowError` returns the success state or the error, leaving the pipeline unchanged. |
| `Ppe.PrevStageStateIsLast` | packages/pevia/src/util/ppe.ts:242-251 | Once any stage exists, the previous stage `onlyThen*` looks up is the last pushed one, and its lookup succeeds. |
| `Ppe.StatsOfCounts` | packages/pevia/src/util/ppe.ts:136-141 | The four buckets together count every stage once. The success bucket holds every stage exactly when all of them succeeded. |
| `Ppe.StatsOfBuckets` | packages/pevia/src/util/ppe.ts:136-141 | With indices equal to positions, an index lies in a bucket exactly when its stage has that bucket's status, for each of the four buckets, and no bucket holds anything else. |
| `Ppe.Pipeline.UpdateStatsAfterPush` | packages/pevia/src/util/ppe.ts:136-141 | The pushed index is added to the bucket of its status, and nothing else changes. |
| `Ppe.PushShape` | packages/pevia/src/util/ppe.ts:143-164 | A push succeeds exactly when a `from*` call was made and the name is not taken. The stage is then appended with `idx = stages.length` and its name is mapped to that index. |
| `Ppe.Pipeline.PushStageWithIdx` | packages/pevia/src/util/ppe.ts:143-164 | The new state is the push result: unchanged with the error on a throw, or the stage appended, indexed, listed as must if it is one, and counted. |
| `Ppe.PushValid` | packages/pevia/src/util/ppe.ts:153-162 | A push of a stage gated on an existing stage keeps every structure invariant, including `stages[i].idx == i`. |
| `Ppe.RepointFacts` | packages/pevia/src/util/ppe.ts:177-188 | An independent stage is re-pointed at the latest must stage when one exists. Nothing else changes, and re-pointing cannot fail in a valid pipeline. |
| `Ppe.Pipeline.RepointStage` | packages/pevia/src/util/ppe.ts:177-188 | The re-pointing half of `filterStageBeforeExec`. |
| `Ppe.GateFacts` | packages/pevia/src/util/ppe.ts:190-201 | The gate changes only the state. It lets a dependent stage through only when its dependency exists, and marks the stage skipped when that dependency did not succeed. |
| `Ppe.GateSkips` | packages/pevia/src/util/ppe.ts:193-199 | The skip reason names the stage, the stage it waited for, and that stage's status. |
| `Ppe.Pipeline.GateStage` | packages/pevia/src/util/ppe.ts:190-201 | The skipping half of `filterStageBeforeExec`. |
| `Ppe.FilterFacts` | packages/pevia/src/util/ppe.ts:166-203 | After the filter the stage depends on an existing stage, and is skipped when that stage did not succeed. Once a must stage exists it depends on something; an independent stage waits for the latest must stage. |
| `Ppe.FilterKeepsName` | packages/pevia/src/util/ppe.ts:170-175 | The filter keeps the name and the description, and the must flag is the one the overwrites set. |
| `Ppe.FilterNoMust` | packages/pevia/src/util/ppe.ts:181-188 | With no must stage, an independent stage passes the filter unchanged, so it runs ungated. |
| `Ppe.Pipeline.FilterStageBeforeExec` | packages/pevia/src/util/ppe.ts:166-203 | The filter result: the overwrites, then the re-pointing, then the gate. |
| `Ppe.ExecuteKeeps` | packages/pevia/src/util/ppe.ts:210-213 | The handler runs exactly on a stage left unset by the filter, and changes only the state. |
| `Ppe.ThrowBecomesFailed` | packages/pevia/src/util/ppe.ts:214-222 | A throwing handler leaves the stage `failed`, with the thrown `Error` or a new one carrying the reason. The exception does not escape. |
| `Ppe.Pipeline.Attach` | packages/pevia/src/util/ppe.ts:204-225 | The private `ThenStage`: filter, run the handler on an unset stage, then push. The outcome keeps whether the handler ran even when the push then throws. |
| `Ppe.AttachAppends` | packages/pevia/src/util/ppe.ts:204-225 | A successful attach appends the filtered, executed stage at the next index. |
| `Ppe.AttachValid` | packages/pevia/src/util/ppe.ts:204-225 | Attaching keeps the structure invariant, whatever the overwrites. |
| `Ppe.FromValid` | packages/pevia/src/util/ppe.ts:301-344 | `from*` keeps the structure invariant. |
| `Ppe.ThenValid` | packages/pevia/src/util/ppe.ts:226-236 | `then*` keeps the structure invariant. |
| `Ppe.OnlyThenValid` | packages/pevia/src/util/ppe.ts:238-253 | `onlyThen*` keeps the structure invariant. |
| `Ppe.PushBlocks` | packages/pevia/src/util/ppe.ts:177-201 | A push keeps "must stages block" when the new stage waits for a stage at or after every must stage and is skipped when that stage failed. |
| `Ppe.AttachBlocks` | packages/pevia/src/util/ppe.ts:177-201 | "Every stage after a must stage that did not succeed is skipped" is kept by `then*`/`from*` of a created (independent) stage and by every `onlyThen*`. |
| `Ppe.FromBlocks` | packages/pevia/src/util/ppe.ts:301-344 | `from*` of an independent stage keeps must stages blocking. |
| `Ppe.ThenBlocks` | packages/pevia/src/util/ppe.ts:226-236 | `then*` of an independent stage keeps must stages blocking. |
| `Ppe.OnlyThenBlocks` | packages/pevia/src/util/ppe.ts:238-253 | `onlyThen*` keeps must stages blocking. |
| `Ppe.ThenBeforeFromThrows` | packages/pevia/src/util/ppe.ts:146-148 | Before any `from*`, `then*` throws and leaves stages, index map, must list and stats unchanged. The handler has run exactly when the stage passed the filter with an unset state. `onlyThen*` on a pipeline with no stage throws too. |
| `Ppe.FromTwiceThrows` | packages/pevia/src/util/ppe.ts:305-307 | A second `from*` throws before anything runs, and the pipeline is unchanged. |
| `Ppe.FromAddsFirst` | packages/pevia/src/util/ppe.ts:301-344 | The first `from*` on a fresh pipeline adds stage 0 when its name is free. |
| `Ppe.Pipeline.FromStage` | packages/pevia/src/util/ppe.ts:301-344 | `fromStage`/`fromMustStage` and their async twins: set `isFromInvoked`, then attach (the must flag as an overwrite). A second call throws. |
| `Ppe.Pipeline.ThenStage` | packages/pevia/src/util/ppe.ts:226-236 | `thenStage`/`thenMustStage`: the private attach with no overwrite, or with `isMust: true`. |
| `Ppe.DuplicateRejected` | packages/pevia/src/util/ppe.ts:149-151 | A stage whose name an existing stage already carries is rejected with an error, and the whole pipeline state (stages, map, must list, stats) is unchanged. The handler has run exactly when the stage passed the filter with an unset state. |
| `Ppe.OnlyThenSkips` | packages/pevia/src/util/ppe.ts:238-253 | `onlyThen*` after a stage that did not succeed appends a skipped stage whose reason names that stage and its status, without running the handler. |
| `Ppe.Pipeline.OnlyThenStage` | packages/pevia/src/util/ppe.ts:238-253 | `onlyThenStage`: throws with no stage, else the private attach with a dependency on the last stage. |
| `Ppe.RepointsToLatestMust` | packages/pevia/src/util/ppe.ts:181-188 | With a must stage in place, a created stage waits for the most recent one. |
| `Ppe.NoMustRunsHandler` | packages/pevia/src/util/ppe.ts:181-213 | With no must stage, a created stage runs its handler unconditionally. |
| `Ppe.FinishCounts` | packages/pevia/src/util/ppe.ts:427-438 | The four bucket sizes add up to `totalStages`. `completeSuccess` holds exactly when every stage succeeded. |
| `Ppe.Pipeline.Finish` | packages/pevia/src/util/ppe.ts:427-438 | `finish()` returns the counts of the current state: they add up, `completeSuccess` iff every stage is `success`, and `totalMustStages` is the number of must stages. |
| `PpeSteps.OnlyThenIsAttach` | packages/pevia/src/util/ppe.ts:238-253 | `onlyThen*` is the private attach with the previous stage as dependency. |
| `PpeSteps.FilterDependent` | packages/pevia/src/util/ppe.ts:190-201 | With its dependency an existing stage, the filter only gates: the stage is skipped when that stage did not succeed. |
| `PpeSteps.AttachPushes` | packages/pevia/src/util/ppe.ts:209-224 | Once filtered, an attach whose push succeeds appends the executed stage. |
| `PpeSteps.OnlyThenGated` | packages/pevia/src/util/ppe.ts:238-253 | `onlyThen*` after a stage that did not succeed appends a skipped stage naming that stage, and does not run the handler. |
| `PpeSteps.OnlyThenRuns` | packages/pevia/src/util/ppe.ts:204-253 | `onlyThen*` after a successful stage runs the handler on the current state, appending what it returned or a failed stage for a throw. |
| `PpeSteps.OnlyThenAppends` | packages/pevia/src/util/ppe.ts:238-253 | `onlyThen*` with a fresh name after at least one stage appends exactly one stage depending on the last, whatever that stage's state. |
| `PpeSteps.FromFresh` | packages/pevia/src/util/ppe.ts:326-344 | The first `fromMust*` on a pipeline not yet started appends stage 0, a must stage with no dependency, holding what its handler produced. |
| `PpeSteps.SkipsPropagate` | packages/pevia/src/util/ppe.ts:190-201 | In stages that each wait for the one before, once a stage has not succeeded every later one is skipped. |
| `ScrapeTypes.SchemaConfig` | packages/pevia/src/engine/cmds/ppe-scrape/run.ts:14-23 | `getSchemaConfig` throws the "found undefined" error exactly when no configuration is set, and otherwise returns it. |
| `ScrapeRun.ScrapeRunner.constructor` | packages/pevia/src/engine/cmds/ppe-scrape/run.ts:12 | On module load there is no configuration and the singleton `SCRAPE_PIPELINE` is empty. |
| `ScrapeRun.ScrapeRunner.GetSchemaConfig` | packages/pevia/src/engine/cmds/ppe-scrape/run.ts:15-23 | It succeeds exactly when a configuration is set, returning it. |
| `ScrapeRun.ScrapeRunner.AttachFirst` | packages/pevia/src/engine/cmds/ppe-scrape/run.ts:35-37 | `fromMustAsyncStage` on a pipeline not yet started makes the renderer stage 0, a must stage. On a started pipeline it throws and changes nothing. |
| `ScrapeRun.ScrapeRunner.AttachRenderer` | packages/pevia/src/engine/cmds/ppe-scrape/stages/renderer/index.ts:21-35 | `setBy(render)` picks the headless or the HTML handler. The headless stage is left `failed` with its fixed reason. |
| `ScrapeRun.ScrapeRunner.Append` | packages/pevia/src/engine/cmds/ppe-scrape/run.ts:39-53 | One `onlyThen*` with a free name adds one stage depending on the last. The new stage is skipped when that stage did not succeed, and otherwise holds what its handler produced. |
| `ScrapeRun.ScrapeRunner.AttachNext` | packages/pevia/src/engine/cmds/ppe-scrape/run.ts:39-53 | The next wired stage's name is free, so attaching it never throws. |
| `ScrapeRun.ScrapeRunner.AttachAudit` | packages/pevia/src/engine/cmds/ppe-scrape/run.ts:51-53 | The audit stage is the fifth stage, waits for download-then-filter, and fails whenever it runs. |
| `ScrapeRun.ScrapeRunner.AttachFromDownload` | packages/pevia/src/engine/cmds/ppe-scrape/run.ts:47-53 | Stages 4 and 5 are wired in order, each waiting for the one before. |
| `ScrapeRun.ScrapeRunner.AttachFromSrcDir` | packages/pevia/src/engine/cmds/ppe-scrape/run.ts:43-53 | Stages 3 to 5 are wired in order, each waiting for the one before. |
| `ScrapeRun.ScrapeRunner.AttachAfterRenderer` | packages/pevia/src/engine/cmds/ppe-scrape/run.ts:39-53 | Stages 2 to 5 are wired in order after the renderer, each waiting for the one before. |
| `ScrapeRun.ScrapeRunner.Run` | packages/pevia/src/engine/cmds/ppe-scrape/run.ts:27-70 | When the pipeline has not started: exactly the five stages in the wired order (download-then-filter with the corrected format filter), the renderer the only must stage, each later stage gated on the one before. Every stage after an unsuccessful one is skipped. The audit stage never succeeds, so `completeSuccess` is false. The stats are `finish()`'s and the configuration is reset. A second `run` throws at `fromMustAsyncStage`, leaves the pipeline unchanged and leaves the configuration set. |
| `ScrapeRun.WiredPipeOf` | packages/pevia/src/engine/cmds/ppe-scrape/run.ts:35-53 | The stage-by-stage wiring facts make up the whole-run property: five stages in order, each later stage skipped after an unsuccessful one, and the audit stage never a success. |
| `ScrapeRun.WiredNamesFree` | packages/pevia/src/engine/cmds/ppe-scrape/run.ts:35-53 | The five wired names are distinct, none is an `Object.prototype` key and none is `DOWNLOAD_STAGE`. |
| `ScrapeRun.AuditLogsNeedsDownload` | packages/pevia/src/engine/cmds/ppe-scrape/stages/fs-stages/audit-logs.ts:27-30 | The audit handler throws the lookup error whenever no stage is named `DOWNLOAD_STAGE`. Otherwise it succeeds exactly when that stage succeeded and the write did not throw. |
| `ScrapeRun.AuditStageFails` | packages/pevia/src/engine/cmds/ppe-scrape/stages/fs-stages/audit-logs.ts:30 | Attached after the four wired stages, the audit stage is skipped when download-then-filter did not succeed. Otherwise its `DOWNLOAD_STAGE` lookup throws and it is `failed`. |
| `ExtractorStage.RenderedPageOf` | packages/pevia/src/engine/cmds/ppe-scrape/stages/extractor/index.ts:42-44 | The page is the response of the renderer stage's success state, or the lookup error. |
| `ExtractorStage.ExtractorNeedsRenderer` | packages/pevia/src/engine/cmds/ppe-scrape/stages/extractor/index.ts:40-45 | The handler throws the renderer lookup error unless the renderer succeeded, then the configuration error. Given both, it combines the two extractions of the page. |
| `ExtractorStage.CombineSucceeds` | packages/pevia/src/engine/cmds/ppe-scrape/stages/extractor/index.ts:47-90 | `<img>` extraction always runs (`wasInvoked` true). Opengraph runs exactly when enabled, and is otherwise empty and not invoked. `totalCandidates` is the sum of both counts, and the state succeeds with the `includeOpengraph` metadata. |
| `ExtractorStage.CombineThrowsIff` | packages/pevia/src/engine/cmds/ppe-scrape/stages/extractor/index.ts:78-82 | The handler throws exactly when there are zero candidates and an error was suppressed. It throws the `<img>` error if there is one, else the opengraph error. |
| `ExtractorUtils.SelectBestSrcUrlFromSrcSet` | packages/pevia/src/engine/cmds/ppe-scrape/stages/extractor/utils.ts:4-31 | The loop over the trimmed comma-separated entries computes the best pick, which the lemmas below characterize. |
| `ExtractorUtils.BestEmptyIff` | packages/pevia/src/engine/cmds/ppe-scrape/stages/extractor/utils.ts:12-30 | The pick is "" exactly when the srcset has no entry, and is otherwise the URL of one of its entries. |
| `ExtractorUtils.BestOfEmptyIff` | packages/pevia/src/engine/cmds/ppe-scrape/stages/extractor/utils.ts:13-29 | Over entries with URLs, the pick is empty exactly when there are none, and is always one entry's URL. |
| `ExtractorUtils.BestOfAllScored` | packages/pevia/src/engine/cmds/ppe-scrape/stages/extractor/utils.ts:18-27 | When every entry has a `w`/`x` number, the pick is the entry with the strictly largest number, the earliest on a tie. |
| `ExtractorUtils.UnscoredTakesOver` | packages/pevia/src/engine/cmds/ppe-scrape/stages/extractor/utils.ts:24-25 | An entry with no number always becomes the pick, and the best score is kept. |
| `ExtractorUtils.EntriesHaveUrls` | packages/pevia/src/engine/cmds/ppe-scrape/stages/extractor/utils.ts:12-16 | Every trimmed, non-empty entry has a URL, so the `continue` never fires. |
| `ExtractorUtils.LazySrcFirst` | packages/pevia/src/engine/cmds/ppe-scrape/stages/extractor/utils.ts:51-52 | The lazy source is the first non-empty trimmed value of `data-src`, `data-original` and `data-lazy-src`, in that order. |
| `ExtractorUtils.ImgCandidateOfIff` | packages/pevia/src/engine/cmds/ppe-scrape/stages/extractor/utils.ts:54-86 | An `<img>` yields nothing exactly when its chosen URL (srcset pick, then `src`, then the lazy source) is empty, fails to absolutize, or is a `data:` URL. Otherwise it yields the absolute URL on the page, with source `srcset`/`data`/`html`, its alt and its file-name hint. |
| `ExtractorUtils.ImgOffer` | packages/pevia/src/engine/cmds/ppe-scrape/stages/extractor/utils.ts:45-75 | The body of the `each` callback, up to the `seen` check, computes the `<img>`'s offer. |
| `ExtractorUtils.CollectImgCandidates` | packages/pevia/src/engine/cmds/ppe-scrape/stages/extractor/utils.ts:41-88 | The `each` loop with its `seen` set computes the de-duplicated offers. |
| `ExtractorUtils.ExtractHtmlImgTagsIntoCandidates` | packages/pevia/src/engine/cmds/ppe-scrape/stages/extractor/utils.ts:38-101 | It returns the candidates with no error, or, when a query throws, the candidates of the elements visited before and the error. |
| `ExtractorUtils.DedupUnique` | packages/pevia/src/engine/cmds/ppe-scrape/stages/extractor/utils.ts:77-86 | No two kept offers share an absolute URL. |
| `ExtractorUtils.DedupComplete` | packages/pevia/src/engine/cmds/ppe-scrape/stages/extractor/utils.ts:77-86 | Every offered URL is kept. |
| `ExtractorUtils.DedupFirstWins` | packages/pevia/src/engine/cmds/ppe-scrape/stages/extractor/utils.ts:77-86 | Each kept offer is the first offer of its URL. |
| `ExtractorUtils.DedupPrefix` | packages/pevia/src/engine/cmds/ppe-scrape/stages/extractor/utils.ts:77-86 | The kept offers of a prefix come first, in document order. |
| `ExtractorUtils.ImgUnique` | packages/pevia/src/engine/cmds/ppe-scrape/stages/extractor/utils.ts:77-86 | `<img>` candidates are unique by absolute `srcUrl`. |
| `ExtractorUtils.ImgComplete` | packages/pevia/src/engine/cmds/ppe-scrape/stages/extractor/utils.ts:77-86 | Every URL an `<img>` yields is among the candidates. |
| `ExtractorUtils.ImgFirstWins` | packages/pevia/src/engine/cmds/ppe-scrape/stages/extractor/utils.ts:77-86 | Each candidate is the one from the first `<img>` yielding its URL, in document order. |
| `ExtractorUtils.ImgCandidatesOnPage` | packages/pevia/src/engine/cmds/ppe-scrape/stages/extractor/utils.ts:72-81 | Every candidate is on the page's URL, and none is a `data:` URL. |
| `ExtractorUtils.ImgPrefix` | packages/pevia/src/engine/cmds/ppe-scrape/stages/extractor/utils.ts:95-100 | The candidates returned after a throw are a prefix of those of the whole document. |
| `ExtractorUtils.CollectMetaContents` | packages/pevia/src/engine/cmds/ppe-scrape/stages/extractor/utils.ts:113-120 | The first loop collects the distinct non-empty `content` strings of every selector in order, until a query throws. |
| `ExtractorUtils.CollectOgCandidates` | packages/pevia/src/engine/cmds/ppe-scrape/stages/extractor/utils.ts:122-132 | The second loop turns each collected content into an `og` candidate when it absolutizes to a non-`data:` URL. |
| `ExtractorUtils.ExtractMetaTags` | packages/pevia/src/engine/cmds/ppe-scrape/stages/extractor/utils.ts:108-145 | Meta extraction over given selectors: the og candidates, or no candidates and the error when a query throws. |
| `ExtractorUtils.ExtractHtmlHeadMetaTagsIntoCandidates` | packages/pevia/src/engine/cmds/ppe-scrape/stages/extractor/utils.ts:108-145 | The same over the two `META_HEAD_ATTRS` selectors. The throwing query comes before any push, so a throw leaves no candidates. |
| `ExtractorUtils.AddContentsFacts` | packages/pevia/src/engine/cmds/ppe-scrape/stages/extractor/utils.ts:114-119 | Collecting contents keeps them distinct and non-empty and keeps earlier ones in place. It loses none and adds nothing but `content` values. |
| `ExtractorUtils.ScanMetaFacts` | packages/pevia/src/engine/cmds/ppe-scrape/stages/extractor/utils.ts:111-120 | Over all selectors, the collected contents are distinct, non-empty, every non-empty `content` of every selector, and nothing else. |
| `ExtractorUtils.OgCandidates` | packages/pevia/src/engine/cmds/ppe-scrape/stages/extractor/utils.ts:122-131 | There are at most as many candidates as collected contents. Each is tagged `og`, sits on the page's URL, has no alt, and its URL is not a `data:` URL. |
| `ExtractorUtils.OgCandidatesResolved` | packages/pevia/src/engine/cmds/ppe-scrape/stages/extractor/utils.ts:122-124 | Every og candidate's URL is one of the collected contents, absolutized against the page URL. |
| `ExtractorUtils.MetaKeepsResolvedDuplicates` | packages/pevia/src/engine/cmds/ppe-scrape/stages/extractor/utils.ts:111-131 | Meta extraction de-duplicates raw `content` strings, not URLs: two spellings of one image give two candidates with the same URL. |
| `SrcFolder.FolderNameFacts` | packages/pevia/src/engine/cmds/ppe-scrape/stages/fs-stages/src-folder.ts:41-43 | A template holding neither token is the folder name as it stands. The default template `{topic}` gives the topic, or `topic` when the topic is empty, as long as that text has no `$` and no `{hostname}` of its own. |
| `SrcFolder.HostLabelFacts` | packages/pevia/src/engine/cmds/ppe-scrape/stages/fs-stages/src-folder.ts:42 | The `{hostname}` value never holds a dot. A host with no dot and no leading `www.` is its own label. |
| `SrcFolder.HostLabelOf` | packages/pevia/src/engine/cmds/ppe-scrape/stages/fs-stages/src-folder.ts:42 | A leading `www.` is dropped and the label ends at the first dot, so `www.example.com` and `example.com` both give `example`. |
| `SrcFolder.SuffixOnce` | packages/pevia/src/engine/cmds/ppe-scrape/stages/fs-stages/src-folder.ts:56-64 | An existing target gets exactly one suffix of four random hex digits (`randomHash(2)`), and a free target is kept as it is. |
| `SrcFolder.CreateSrcDirOutcome` | packages/pevia/src/engine/cmds/ppe-scrape/stages/fs-stages/src-folder.ts:56-91 | The stage succeeds, with exactly the final path as its response, iff that path does not exist and `mkdir` does not throw. Otherwise it fails with a reason naming the path. A free target that still fails means `mkdir` threw. |
| `SrcFolder.EnsureSrcDirNeeds` | packages/pevia/src/engine/cmds/ppe-scrape/stages/fs-stages/src-folder.ts:33-54 | The handler throws the configuration error first and then the renderer lookup error. An unparsable page URL throws `Invalid URL`. Otherwise it returns the stage for the target `resolve(cwd, out, folder name)`, where `out` is the resolved output root. |
| `DownloadThenFilter.CapSkipsFirst` | packages/pevia/src/engine/cmds/ppe-scrape/stages/fs-stages/download-then-filter.ts:150-160 | At or over `maxImages` the candidate is skipped with `MAX_IMGS_THRESHOLD_EXCEED`, before the origin check and before any download. |
| `DownloadThenFilter.ForeignOriginSkipped` | packages/pevia/src/engine/cmds/ppe-scrape/stages/fs-stages/download-then-filter.ts:162-172 | Under the cap, with `skipExternalImages` and a different origin, the candidate is skipped with `IMG_FROM_EXTERNAL_ORIGIN_NOT_ALLOWED` and no download. |
| `DownloadThenFilter.DownloadOutcome` | packages/pevia/src/engine/cmds/ppe-scrape/stages/fs-stages/download-then-filter.ts:174-230 | Past both checks, a failed download is a failed row with the transport reason and ms, and a throwing probe rejects. |
| `DownloadThenFilter.JudgeOrder` | packages/pevia/src/engine/cmds/ppe-scrape/stages/fs-stages/download-then-filter.ts:182-220 | An unwanted format gives `UNWANTED_IMG_FORMAT` before the dimension check. `width < minWidth` or `height < minHeight` gives `DIMENSION_TOO_SMALL`. An image passing both is a saved entry with its buffer. |
| `DownloadThenFilter.UnwantedIff` | packages/pevia/src/engine/cmds/ppe-scrape/stages/fs-stages/download-then-filter.ts:182-185 | A format is wanted exactly when it is not excluded and `formats` lists it or `*`. |
| `DownloadThenFilter.HandleCandidate` | packages/pevia/src/engine/cmds/ppe-scrape/stages/fs-stages/download-then-filter.ts:88-110 | The loop body computes one step: process, write a saved entry, push, or turn a throw into a failed row. |
| `DownloadThenFilter.StepOneRow` | packages/pevia/src/engine/cmds/ppe-scrape/stages/fs-stages/download-then-filter.ts:88-110 | One step adds exactly one row to exactly one of saved, skipped or failed, keeping the rest. A row is saved only under the cap and after its write succeeded. |
| `DownloadThenFilter.MaterializeAppend` | packages/pevia/src/engine/cmds/ppe-scrape/stages/fs-stages/download-then-filter.ts:85-112 | Processing two runs of candidates one after the other is processing them together. |
| `DownloadThenFilter.DownloadGroup` | packages/pevia/src/engine/cmds/ppe-scrape/stages/fs-stages/download-then-filter.ts:87-111 | The inner loop processes the group's candidates in order. |
| `DownloadThenFilter.DownloadAll` | packages/pevia/src/engine/cmds/ppe-scrape/stages/fs-stages/download-then-filter.ts:85-112 | The nested loops process the `img` group and then the `opengraph` group. |
| `DownloadThenFilter.MaterializeRows` | packages/pevia/src/engine/cmds/ppe-scrape/stages/fs-stages/download-then-filter.ts:85-112 | Every candidate adds exactly one row, earlier rows are kept, and every added saved row was written. Once `saved` reaches `maxImages` it never grows. |
| `DownloadThenFilter.DownloadAllBounds` | packages/pevia/src/engine/cmds/ppe-scrape/stages/fs-stages/download-then-filter.ts:90 | From no rows, the saved count never exceeds `maxImages` (none for a cap at or below zero), and the three lists hold one row per candidate. |
| `DownloadThenFilter.HandlerSucceeds` | packages/pevia/src/engine/cmds/ppe-scrape/stages/fs-stages/download-then-filter.ts:61-124 | Given its two lookups and the configuration, the stage always succeeds, with the source folder passed through. |
| `DownloadThenFilter.AsWrittenSavesNothing` | packages/pevia/src/engine/cmds/ppe-scrape/stages/fs-stages/download-then-filter.ts:181-185 | As written, with the schema's missing `excludeFormats`, every downloaded and probed image becomes a failed `TypeError` row, so nothing is ever saved. |
| `DownloadThenFilter.IntendedSavesPassing` | packages/pevia/src/engine/cmds/ppe-scrape/stages/fs-stages/download-then-filter.ts:182-220 | With an absent exclusion list read as empty, an image passing every check is saved once written. As written, the same image becomes a failed row. |
| `DownloadStage.HandleDownload` | packages/pevia/src/engine/cmds/ppe-scrape/stages/fs-stages/download.ts:73-106 | The loop body computes one step: download, then in the `try` write and push the saved row, or push the failed row. |
| `DownloadStage.DownloadRowsAppend` | packages/pevia/src/engine/cmds/ppe-scrape/stages/fs-stages/download.ts:70-108 | Downloading two runs of candidates one after the other is downloading them together. |
| `DownloadStage.DownloadGroup` | packages/pevia/src/engine/cmds/ppe-scrape/stages/fs-stages/download.ts:72-107 | The inner loop downloads the group's candidates in order. |
| `DownloadStage.DownloadEach` | packages/pevia/src/engine/cmds/ppe-scrape/stages/fs-stages/download.ts:68-108 | The two nested loops download every group's candidates in order. |
| `DownloadStage.DownloadStepRows` | packages/pevia/src/engine/cmds/ppe-scrape/stages/fs-stages/download.ts:77-106 | A successful download is pushed to saved only after its write succeeds, and a write error becomes a failed row with the error's message. A failed download is a failed row with its reason and ms. |
| `DownloadStage.DownloadRowsCount` | packages/pevia/src/engine/cmds/ppe-scrape/stages/fs-stages/download.ts:68-108 | Each candidate adds exactly one row, to saved or to failed, and earlier rows are kept. Every saved row was written. |
| `DownloadStage.DownloadHandlerOutcome` | packages/pevia/src/engine/cmds/ppe-scrape/stages/fs-stages/download.ts:53-118 | The handler throws the `ENSURE_SRC_DIR` lookup error, then the `FILTERER_STAGE` one. With both and a configuration it succeeds, passing `absSrcDirPath` through, with one row per candidate. |
| `ScrapeUtils.IsSubPathIff` | packages/pevia/src/engine/cmds/ppe-scrape/utils.ts:33-46 | It holds for the directory itself and for each descendant whose first extra segment does not start with `..`, and for nothing else. |
| `ScrapeUtils.IsSubPathReflexive` | packages/pevia/src/engine/cmds/ppe-scrape/utils.ts:45 | A directory is a sub-path of itself. |
| `ScrapeUtils.IsSubPathStrictVersusPlain` | packages/pevia/src/engine/cmds/ppe-scrape/utils.ts:33-46 | This copy and the strict one in `util/fs.ts` differ exactly on equal paths. |
| `ScrapeUtils.IsSubPathRejectsDotDotName` | packages/pevia/src/engine/cmds/ppe-scrape/utils.ts:45 | `/out/..cache` is rejected under `/out` although it lies inside it. |
| `ScrapeUtils.IsSubPathBySegmentIff` | packages/pevia/src/engine/cmds/ppe-scrape/utils.ts:33-46 | The corrected segment-wise test holds exactly for the directory and its descendants. |
| `ScrapeUtils.RephraseToken` | packages/pevia/src/engine/cmds/ppe-scrape/utils.ts:132-150 | A `{word}` token with a replacer renders as its value. With no own entry, an inherited `Object.prototype` name renders as that member's text, so `{constructor}` becomes `function Object() { [native code] }`. Any other unknown token renders as its bare name without braces. The text after it is rendered on. |
| `ScrapeUtils.RephraseFrom` | packages/pevia/src/engine/cmds/ppe-scrape/utils.ts:139-148 | The result does not depend on how many tokens came before. |
| `ScrapeUtils.RephrasePlain` | packages/pevia/src/engine/cmds/ppe-scrape/utils.ts:136-137 | Text outside tokens is unchanged. |
| `ScrapeUtils.RephraseSingle` | packages/pevia/src/engine/cmds/ppe-scrape/utils.ts:136-149 | A template that is one token renders as its value. |
| `ScrapeUtils.RephraseNameDotExt` | packages/pevia/src/engine/cmds/ppe-scrape/utils.ts:136-149 | `{w}.{ext}` renders as the two values around a dot. |
| `ScrapeUtils.DownloadSavedRow` | packages/pevia/src/engine/cmds/ppe-scrape/utils.ts:166-200 | The row copies the topic, candidate, `ms` and byte count. `hash8` is the first eight characters of the buffer's sha256, or all of it when shorter, and `mime` defaults to "". |
| `ScrapeUtils.SavedRowExt` | packages/pevia/src/engine/cmds/ppe-scrape/utils.ts:177-180 | The extension comes from the MIME table when the type is known, and from the hint or source URL (after the last `.`, cut at `?`, lower-cased) when there is no MIME, and `bin` when that text is empty. |
| `ScrapeUtils.HashFileName` | packages/pevia/src/engine/cmds/ppe-scrape/utils.ts:182-186 | `{hash8}` and `{hash}` both render as the eight hex characters. |
| `ScrapeUtils.SavedRowDefaultPath` | packages/pevia/src/engine/cmds/ppe-scrape/utils.ts:181-198 | With the default `{hash8}.{ext}`, the file is `<hash8>.<ext>` in the source folder. |
| `ScrapeUtils.SavedRowContentAddressed` | packages/pevia/src/engine/cmds/ppe-scrape/utils.ts:176 | Equal buffers give equal `hash8`, and so the same file name under the same template, MIME type and candidate. |
| `ScrapeUtils.SavedRowBasename` | packages/pevia/src/engine/cmds/ppe-scrape/utils.ts:186 | `{basename}` renders as the hint, or as `bn404<hash8>.<ext>` when there is none. |
| `Fs.AbsolutizeUrl` | packages/pevia/src/util/fs.ts:4-25 | A `//x` reference yields the base's protocol followed by `//x`. Anything else is resolved against the base. A parse failure gives undefined. |
| `Fs.SameOrigin` | packages/pevia/src/util/fs.ts:27-36 | False when either URL fails to parse, otherwise origin equality. |
| `Fs.SameOriginSymmetric` | packages/pevia/src/util/fs.ts:27-36 | `sameOrigin` is symmetric. |
| `Fs.SameOriginReflexive` | packages/pevia/src/util/fs.ts:27-36 | A URL is same-origin with itself exactly when it parses. |
| `Fs.ExtFromMimeNoMime` | packages/pevia/src/util/fs.ts:41 | With no (or an empty) MIME, the fallback decides, else `bin`. |
| `Fs.ExtFromMimeKnown` | packages/pevia/src/util/fs.ts:42-48 | After stripping `;` parameters, trimming and lower-casing, a type in the table (jpeg/jpg to jpg, png, webp, gif, svg+xml to svg, avif) gives its table entry, whatever the fallback. |
| `Fs.ExtFromMimeOther` | packages/pevia/src/util/fs.ts:49 | A type outside the table gives the fallback when it is non-empty, else `bin` when the type has no `/`. |
| `Fs.ExtFromMimeSubtype` | packages/pevia/src/util/fs.ts:49 | With no fallback, a type `a/b` outside the table gives its subtype `b`. |
| `Fs.ExtFromMimeIgnoresParameters` | packages/pevia/src/util/fs.ts:42 | Parameters after `;` never change the extension. |
| `Fs.WindowSafeKeepsOthers` | packages/pevia/src/util/fs.ts:53-55 | With the default replacement, every `< > : " / \ \| ? *` is removed and every other character is kept, in order. |
| `Fs.WindowSafeIdempotent` | packages/pevia/src/util/fs.ts:53-55 | `windowSafe` applied twice is `windowSafe` applied once. |
| `Fs.NoUnsafeFixed` | packages/pevia/src/util/fs.ts:53-55 | A string with no unsafe character is left as it is. |
| `Fs.IsSubPathStrictIff` | packages/pevia/src/util/fs.ts:58-72 | True exactly when the parent's segments are a proper prefix of the child's and the first extra segment does not start with `..`. So it is false for equal paths. |
| `Fs.IsSubPathStrictIrreflexive` | packages/pevia/src/util/fs.ts:70-71 | A directory is never a strict sub-path of itself. |
| `Fs.IsSubPathRejectsDotDotName` | packages/pevia/src/util/fs.ts:71 | `/out/..cache` is rejected under `/out` although it lies inside it. |
| `Fs.IsSubPathStrictBySegmentIff` | packages/pevia/src/util/fs.ts:58-72 | The corrected segment-wise test holds exactly for strict descendants. |
| `Fs.SafeResolveOutDir` | packages/pevia/src/util/fs.ts:74-85 | When `realpath` fails, an absolute input comes back normalized, and a relative one comes back resolved against cwd. |
| `Crypt.SlugBodyShape` | packages/pevia/src/util/crypt.ts:8-11 | The slug body has only letters, numbers and single inner dashes, never a dash at either end. It is empty exactly when the input has no letter or number. |
| `Crypt.SlugifyFallback` | packages/pevia/src/util/crypt.ts:12-13 | An input with a letter or number slugs to its body. Any other input slugs to `def`, else `not-defined`. |
| `Crypt.SlugifyWindowsSafe` | packages/pevia/src/util/crypt.ts:13 | With `winSafe`, the slug contains none of `<>:"/\|?*`. |
| `Crypt.Hash8` | packages/pevia/src/util/crypt.ts:23-27 | `hash8(s)` is the prefix of `s` of length min(8, \|s\|). |
| `Crypt.RandomHash` | packages/pevia/src/util/crypt.ts:29-31 | `randomHash(n)` of `n` supplied bytes is 2n lower-case hex characters. |
| `JsString.Hex` | packages/pevia/src/util/crypt.ts:29-31 | `toString('hex')` writes byte `i` as characters `2i` and `2i+1`: its high nibble, then its low nibble, each as a lower-case hex digit. The result is twice as long as the bytes. |
| `Funcs.BoolParse` | packages/pevia/src/util/funcs.ts:5-7 | True exactly when the trimmed, lower-cased input is `true`; otherwise `falsy` (undefined by default). |
| `Funcs.IntParseWritten` | packages/pevia/src/util/funcs.ts:8-10 | A written integer, followed by nothing or by a character that is neither a digit nor `x`/`X`, parses back to itself: `intParse("12px")` is 12. |
| `Funcs.IntParseNoDigits` | packages/pevia/src/util/funcs.ts:8-10 | Input that contains no digit at all, the empty string included, gives `falsy`. |
| `Funcs.CsvParse` | packages/pevia/src/util/funcs.ts:14-20 | Non-string input, and only that, gives `false` rather than a list. Every item returned is trimmed. |
| `Funcs.CsvParseJoined` | packages/pevia/src/util/funcs.ts:14-20 | Trimmed items with no comma or semicolon, joined with `,`, parse back to themselves under the default separator. |
| `Funcs.CsvParseJoinedSemicolon` | packages/pevia/src/util/funcs.ts:16-17 | Two or more trimmed items with no `;`, joined with `;`, parse back under the default separator, which is then `;`: a `,` inside an item is kept. |
| `ConfigLoader.Overwrite` | packages/pevia/src/config/loader.ts:101-117 | The loop of `overwrite(...).with(...)` applies each source entry in insertion order to a copy of the default. |
| `ConfigLoader.OverwriteGet` | packages/pevia/src/config/loader.ts:104-115 | Each key holds the merge of its default and source values. Undefined values and `__proto__`/`constructor`/`prototype` are skipped. Arrays and scalars replace. Plain objects merge recursively, a non-object target counting as `{}`. Keys only in the default survive. |
| `ConfigLoader.OverwriteKeys` | packages/pevia/src/config/loader.ts:104-115 | The result holds every default key, plus only those source keys that are defined and not refused. |
| `ConfigLoader.MergePrecedence` | packages/pevia/src/config/loader.ts:130-133 | For a key that no layer holds as an object, cli beats env beats file beats defaults, with undefined layers passed over. |
| `ConfigLoader.MergeIgnoresForbidden` | packages/pevia/src/config/loader.ts:106 | A refused key keeps the default's value through every layer. |
| `ConfigLoader.Prune` | packages/pevia/src/config/loader.ts:63-73 | The loop of `prune` computes the pruned value. |
| `ConfigLoader.PrunedFieldsGet` | packages/pevia/src/config/loader.ts:63-73 | Pruning acts key by key. `false`, `0` and `""` survive; only undefined leaves and objects pruned to nothing disappear. |
| `ConfigLoader.PruneIdempotent` | packages/pevia/src/config/loader.ts:63-73 | Pruning twice is pruning once. |
| `ConfigLoader.PruneTop` | packages/pevia/src/config/loader.ts:74 | The top-level result is never undefined: it falls back to `{}`. |
| `Auxil.DirReplacementFacts` | packages/pevia/src/engine/cmds/scrape/stages/fs-manager/auxil.ts:9-19 | An empty value gives `D404-` and eight random hex digits. A value with a letter or number gives its slug. Any other value gives `T404` and six random hex digits. None contains `$`. |
| `Auxil.RephraseDirFirst` | packages/pevia/src/engine/cmds/scrape/stages/fs-manager/auxil.ts:9-19 | Only the first occurrence of the search value is replaced, verbatim. A template without it is kept. |
| `Auxil.HexSlug` | packages/pevia/src/engine/cmds/scrape/stages/fs-manager/auxil.ts:18 | A non-empty lower-case hex string slugs to itself, so the random fallback survives `slugify`. |
| `Auxil.FileTemplateToken` | packages/pevia/src/engine/cmds/scrape/stages/fs-manager/auxil.ts:21-30 | The `k`-th `{word}` token (`rephraseFileTemplate` counts from 0) with a truthy value renders as that value. With no own entry, an inherited `Object.prototype` name renders as that member's text, so `{toString}` becomes `function toString() { [native code] }`. Any other token renders as the word, `404-` and the six hex digits of the `k`-th `randomHash(3)`. The scan goes on with the next count. |
| `Auxil.FileTemplatePlain` | packages/pevia/src/engine/cmds/scrape/stages/fs-manager/auxil.ts:21-30 | Text without `{` is kept as it is. |
| `Auxil.SavedRowFields` | packages/pevia/src/engine/cmds/scrape/stages/fs-manager/auxil.ts:32-70 | `srcUrl` is `finalUrl`, else `pageUrl`, and the other candidate fields are kept. `bytes` is the buffer length and the status is `saved`. `hash8` is a prefix of the digest with at most 8 characters. With a non-empty override file name, `savedPath` is `join(parent, fileName)`. |
| `Auxil.BasenamePlaceholder` | packages/pevia/src/engine/cmds/scrape/stages/fs-manager/auxil.ts:28 | `{basename}` with no truthy value renders as `basename404-` and six random hex digits. |
| `Auxil.SavedRowNoHint` | packages/pevia/src/engine/cmds/scrape/stages/fs-manager/auxil.ts:53 | With no hint and no override, a `{basename}` template names the file with that placeholder. |
| `Auxil.FailedRowReason` | packages/pevia/src/engine/cmds/scrape/stages/fs-manager/auxil.ts:72-86 | The reason is the message, else the name, else `unknown`, so it is never empty. The status is `failed`, and the candidate and topic are kept. |
| `Auxil.Entries` | packages/pevia/src/engine/cmds/scrape/stages/fs-manager/auxil.ts:95-97 | The encoded row has one field per value, in order, each the value's CSV encoding. |
| `Auxil.ReadEscaped` | packages/pevia/src/engine/cmds/scrape/stages/fs-manager/auxil.ts:89-94 | A field is quoted (inner quotes doubled) exactly when it holds a comma, quote or LF. An escaped field reads back, by section 2 of RFC 4180, as the exact text, leaving the rest of the line. |
| `Auxil.EscapeInjective` | packages/pevia/src/engine/cmds/scrape/stages/fs-manager/auxil.ts:89-94 | Escaping never merges two different texts. |
| `Auxil.CsvRowRoundTrip` | packages/pevia/src/engine/cmds/scrape/stages/fs-manager/auxil.ts:95-97 | A CSV line reads back as the texts of its values, in order and as many. |
| `Auxil.CsvText` | packages/pevia/src/engine/cmds/scrape/stages/fs-manager/auxil.ts:133-144 | The CSV branch is the header, then one line per row, joined by LF. |
| `Auxil.CsvHeaderKeys` | packages/pevia/src/engine/cmds/scrape/stages/fs-manager/auxil.ts:133-136 | The header reads back as the first row's keys. |
| `Auxil.CreateAndWriteHistoryLogFiles` | packages/pevia/src/engine/cmds/scrape/stages/fs-manager/auxil.ts:99-152 | The loop over the categories computes the history-file outcome. |
| `Auxil.HistoryLogFilesOutcome` | packages/pevia/src/engine/cmds/scrape/stages/fs-manager/auxil.ts:107-116 | With every category empty, nothing is created and `[]` is returned. Otherwise the folder is made first, and `mkdir` errors propagate. |
| `Auxil.WrittenPaths` | packages/pevia/src/engine/cmds/scrape/stages/fs-manager/auxil.ts:117-151 | When every write succeeds, the result has one path per non-empty category and lists exactly their paths. |
| `Auxil.WriteFailureThrows` | packages/pevia/src/engine/cmds/scrape/stages/fs-manager/auxil.ts:145-147 | A write that throws makes the whole call throw. |
| `Auxil.NonEmptyCountAny` | packages/pevia/src/engine/cmds/scrape/stages/fs-manager/auxil.ts:109-113 | Some category is non-empty exactly when the count of non-empty categories is positive. |
| `Auxil.LogFileInFolder` | packages/pevia/src/engine/cmds/scrape/stages/fs-manager/auxil.ts:120-121 | A category's file is `<category>.<ext>` directly inside the folder `absDir` resolves to. |
| `LegacyPipeline.RecordedFacts` | packages/pevia/src/util/pipeline.ts:46-76 | A resolved callback's result is kept with its own metadata, and `metadata.ms` is set (metadata created if absent). A rejection is recorded as `ok: false` with the error and the ms. |
| `LegacyPipeline.StageOverwrites` | packages/pevia/src/util/pipeline.ts:58-61 | A second stage under the same name overwrites the first; there is no uniqueness check. |
| `LegacyPipeline.StageKeepsOthers` | packages/pevia/src/util/pipeline.ts:58-61 | A stage sets its own name's entry and keeps every other entry, the name, the description and the globals. |
| `LegacyPipeline.StagesCommute` | packages/pevia/src/util/pipeline.ts:42-79 | Stages under different names leave the same payload whichever order they run in. |
| `LegacyPipeline.Pipeline.constructor` | packages/pevia/src/util/pipeline.ts:27-29 | The pipeline holds the payload it was given. |
| `LegacyPipeline.Pipeline.Middleware` | packages/pevia/src/util/pipeline.ts:31-40 | The payload becomes what the callback resolves to, and the pipeline itself is returned. A rejection propagates with the payload unchanged. |
| `LegacyPipeline.Pipeline.Stage` | packages/pevia/src/util/pipeline.ts:42-79 | The outcome is recorded under the name first. A rejection then goes to `handleError` (by default a rethrow), and the pipeline itself is returned. |
| `LegacyPipeline.Pipeline.Launch` | packages/pevia/src/util/pipeline.ts:81-83 | `launch` returns the current payload. |
| `LegacyPipeline.NewPipeline` | packages/pevia/src/util/pipeline.ts:86-99 | `pipeline(name)(description)({globals, stages})` starts a fresh pipeline on exactly that payload. |

## Left out

- Console output, icons, colours and the CLI (`cli.text...log()`, `util/log.ts`, `util/print.ts`, the docs app): these produce no state the core reads.
- The source folder stage's check that the target lies inside the working directory (`isSubPath(cwd, absSrcDirPath)`, src-folder.ts:47-54) only prints warnings, so it does not appear in the stage's outcome.
- The renderers `renderer/html.ts` and cheerio are network and DOM libraries. The HTML renderer is a parameter (`htmlRender`), and the DOM is a list of attribute maps per selector. The headless renderer is its constant `failed` state.
- The filterer stage (`stages/filterer/index.ts`) is an identity pass-through and is not wired by `run`. `FILTERER_STAGE` is only a name that `DOWNLOAD_STAGE` looks up.
- `followups.js` (`scrapeSummaryFollowupCallback`) is not part of this model. `withFollowUp` only calls back with the tools, after `finish()`, so `run`'s result does not depend on it.
- `when(...)` in `util/ppe.ts` is a boolean choice between two attach calls and is not modelled separately. `useTools` is modelled as the read-only state handed to handlers.
- The async `*Async*` methods are the sync ones with a flavor tag that changes only the error messages. No handler runs concurrently.
- Timestamps (`ts`, `new Date().toISOString()`) are dropped, and `ms` values are inputs.
- Download bytes, MIME type and final URL, `sharp` metadata, `sha256`, `randomBytes`, `exists`, `mkdir`, `writeFile` and `realpath` are parameters of `Env` and `LogFs`.
- The audit stage's JSON text (`JSON.stringify`) and the history file's JSON branch are parameters. Only the file paths and the CSV text are modelled.
- Stage descriptions (the long `WHAT_DOES_*` texts) are the empty string: nothing reads them.
- `numParse` (floating point) is not modelled.
- Unicode: `normalize("NFKD")`, `\p{Letter}`/`\p{Number}` and `toLowerCase` are modelled on ASCII letters and digits only.
- `downloadBinary` (network, abort timer) is not modelled; its result is the `DownloadOutcome` input.
- The reading half of the config loader (`loadEnvConfig` reading `process.env`, `cosmiconfig` in `loadConfigFile`) and zod validation are not modelled. The merge and `prune` are modelled, and the schema defaults are a constant.
- Aliasing: a stage skeleton reused by `thenStage` is mutated in place in the source. In the model skeletons are values, so repeated use of one skeleton is not captured. The same holds for the legacy pipeline's payload object, which callbacks could mutate.
- `cloneStage` is not a separate member: stages are values, so every read already returns a copy that later changes cannot reach.
- Object key order: configuration objects are ordered field lists. History rows are key/value lists whose header is taken from the first row's keys, as in the source.
- The legacy `scrape/` stages other than `auxil.ts` (`file-system.ts`, `download.ts`, extractors, `scrape/pipeline.ts`), `engine/*` stubs, `util/url.ts` and `stages/fs-stages/utils.ts` are duplicates, stubs or I/O orchestration of logic modelled here.
- `ScrapeRun.ScrapeRunner.Run`: the wired download-then-filter stage uses the corrected format filter, where an undefined `excludeFormats` excludes nothing. As written, `run.ts` attaches a filter that throws on every downloaded image under a validated configuration, so nothing is saved. That behaviour is `DownloadThenFilterHandler` with `asWritten` true, and `DownloadThenFilter.AsWrittenSavesNothing` states it. The stage-level facts `Run` states hold for either filter.
- `ScrapeUtils.DownloadSavedRow`: the optional `fileName` override of `downloadSavedRow` is not a parameter, because neither caller passes it. The file name is always the rendered template.
- `Funcs.IntParseWritten`: stated for decimal numerals; `parseInt`'s `0x` hex prefix is modelled in the parse but not characterized by a lemma.
- `Funcs.CsvParseJoinedSemicolon`: stated only for items without `,` or `;`. An arbitrary item containing the default separator does not round-trip in the source either.

## Findings

| source | as written | input that shows it | evidently intended | confidence | as-written member | corrected member |
|---|---|---|---|---|---|---|
| packages/pevia/src/util/fs.ts:71 | `!rel.startsWith('..')` tests the text of the relative path | parent `/out`, child `/out/..cache`: `rel` is `..cache`, so this is rejected although it is inside | reject only a first segment equal to `..` | not executed | `Fs.IsSubPathRejectsDotDotName` | `Fs.IsSubPathStrictBySegmentIff` |
| packages/pevia/src/engine/cmds/ppe-scrape/utils.ts:45 | the same text test in the non-strict copy | parent `/out`, child `/out/..cache` | reject only a first segment equal to `..` | not executed | `ScrapeUtils.IsSubPathRejectsDotDotName` | `ScrapeUtils.IsSubPathBySegmentIff` |
| packages/pevia/src/engine/cmds/ppe-scrape/stages/fs-stages/download-then-filter.ts:183 | `excludeFormats.includes(format)`, but the schema in `config/schema.ts` has no `excludeFormats`, so a validated configuration leaves it undefined | any downloaded, probed image under the default configuration: the `TypeError` is caught at line 102 and the image becomes a failed row | an absent exclusion list excludes nothing | not executed | `DownloadThenFilter.AsWrittenSavesNothing` | `DownloadThenFilter.IntendedSavesPassing` |
