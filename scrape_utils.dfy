/** `ppe-scrape/utils.ts` (and its copy `stages/fs-stages/utils.ts`): the
    non-strict sub-path test, `{token}` file-name rendering and the row
    `downloadSavedRow` builds for a finished download. `absolutizeUrl`,
    `sameOrigin` and `extFromMime` are the same code as in `util/fs.ts` and
    are modelled once, in `Fs`. */
module ScrapeUtils {
  import opened Wrappers
  import opened JsString
  import opened Paths
  import opened Fs
  import opened Crypt
  import opened ScrapeTypes

  // ---------------------------------------------------------------------
  // isSubPath

  /** `isSubPath`: the relative path neither climbs (`..` prefix) nor is absolute. */
  function IsSubPath(absParent: AbsPath, absChild: AbsPath): bool {
    var rel := Relative(absParent, absChild);
    !StartsWith(rel, "..") && !IsAbsolute(rel)
  }

  /** The test holds for the directory itself and for every descendant whose
      first extra segment does not start with `..`. */
  lemma IsSubPathIff(parent: AbsPath, child: AbsPath)
    requires parent.Valid() && child.Valid()
    ensures IsSubPath(parent, child) <==>
      parent.segs <= child.segs
      && (|parent.segs| == |child.segs| || !StartsWith(child.segs[|parent.segs|], ".."))
  {
    RelativeClimbs(parent, child);
    if parent.segs <= child.segs {
      if |parent.segs| < |child.segs| {
        JoinedSegmentsHead(child.segs[|parent.segs|..]);
      } else {
        assert child.segs[|parent.segs|..] == [];
      }
    }
  }

  /** Unlike the strict copy in `util/fs.ts`, a directory is a sub-path of itself. */
  lemma IsSubPathReflexive(p: AbsPath)
    requires p.Valid()
    ensures IsSubPath(p, p) && !IsSubPathStrict(p, p)
  {
    IsSubPathIff(p, p);
    IsSubPathStrictIrreflexive(p);
  }

  /** The two copies differ exactly on equal paths. */
  lemma IsSubPathStrictVersusPlain(parent: AbsPath, child: AbsPath)
    requires parent.Valid() && child.Valid()
    ensures IsSubPathStrict(parent, child) <==> IsSubPath(parent, child) && parent != child
  {
    IsSubPathIff(parent, child);
    IsSubPathStrictIff(parent, child);
    if parent.segs <= child.segs && |parent.segs| == |child.segs| {
      assert parent.segs == child.segs;
    }
  }

  /** A directory whose name starts with two dots, such as `/out/..cache`
      under `/out`, is rejected although it lies inside. */
  lemma IsSubPathRejectsDotDotName()
    ensures AbsPath(["out"]).Valid() && AbsPath(["out", "..cache"]).Valid()
    ensures !IsSubPath(AbsPath(["out"]), AbsPath(["out", "..cache"]))
  {
    IsSubPathIff(AbsPath(["out"]), AbsPath(["out", "..cache"]));
    assert StartsWith("..cache", "..");
  }

  /** The test with the climb check made segment-wise. */
  function IsSubPathBySegment(absParent: AbsPath, absChild: AbsPath): bool {
    var rel := Relative(absParent, absChild);
    !Climbs(rel) && !IsAbsolute(rel)
  }

  /** The segment-wise test holds exactly for the directory and its descendants. */
  lemma IsSubPathBySegmentIff(parent: AbsPath, child: AbsPath)
    requires parent.Valid() && child.Valid()
    ensures IsSubPathBySegment(parent, child) <==> parent.segs <= child.segs
  {
    IsSubPathStrictBySegmentIff(parent, child);
    if parent.segs <= child.segs && |parent.segs| == |child.segs| {
      assert parent.segs == child.segs;
      assert CommonPrefixLength(parent.segs, child.segs) == |parent.segs|;
      assert Relative(parent, child) == Join([], "/");
    }
  }

  // ---------------------------------------------------------------------
  // rephraseFileTemplate

  /** The callback of `rephraseFileTemplate`: a defined replacer, else the
      text of an inherited `Object.prototype` member (`in` sees those too),
      else the bare word. */
  function FileReplacer(replacers: map<string, string>): (string, nat) -> string {
    (w: string, k: nat) => FileValue(replacers, w)
  }

  function FileValue(replacers: map<string, string>, w: string): string {
    if w in replacers then replacers[w]
    else if w in ObjectPrototypeKeys then InheritedText(w)
    else w
  }

  /** `rephraseFileTemplate`: every `{word}` token through `FileReplacer`. */
  function RephraseFileTemplate(fileTemplate: string, replacers: map<string, string>): string {
    ReplaceTokens(fileTemplate, FileReplacer(replacers), 0)
  }

  /** A token with a replacer renders as its value, an inherited
      `Object.prototype` name as that member's text, any other one as its
      bare name without braces, and the text after it is rendered on. */
  lemma RephraseToken(w: string, rest: string, replacers: map<string, string>)
    requires IsWord(w)
    ensures w in replacers ==>
      RephraseFileTemplate("{" + w + "}" + rest, replacers) == replacers[w] + RephraseFileTemplate(rest, replacers)
    ensures w !in replacers && w in ObjectPrototypeKeys ==>
      RephraseFileTemplate("{" + w + "}" + rest, replacers) == InheritedText(w) + RephraseFileTemplate(rest, replacers)
    ensures w !in replacers && w !in ObjectPrototypeKeys ==>
      RephraseFileTemplate("{" + w + "}" + rest, replacers) == w + RephraseFileTemplate(rest, replacers)
  {
    RephraseTokenSplit(w, rest, replacers);
    FileReplacerAt(replacers, w);
  }

  lemma RephraseTokenSplit(w: string, rest: string, replacers: map<string, string>)
    requires IsWord(w)
    ensures RephraseFileTemplate("{" + w + "}" + rest, replacers)
         == FileReplacer(replacers)(w, 0) + RephraseFileTemplate(rest, replacers)
  {
    RephraseTokenAt(w, rest, replacers, 0);
  }

  lemma RephraseTokenAt(w: string, rest: string, replacers: map<string, string>, k: nat)
    requires IsWord(w)
    ensures ReplaceTokens("{" + w + "}" + rest, FileReplacer(replacers), k)
         == FileReplacer(replacers)(w, k) + RephraseFileTemplate(rest, replacers)
  {
    ReplaceTokensToken(w, rest, FileReplacer(replacers), k);
    RephraseFrom(rest, replacers, k + 1);
  }

  lemma FileReplacerAt(replacers: map<string, string>, w: string)
    ensures FileReplacer(replacers)(w, 0) == FileValue(replacers, w)
  {
  }

  /** The callback ignores the token count. */
  lemma {:induction false} RephraseFrom(s: string, replacers: map<string, string>, k: nat)
    ensures ReplaceTokens(s, FileReplacer(replacers), k) == RephraseFileTemplate(s, replacers)
    decreases |s|
  {
    if s != [] {
      match TokenEnd(s)
      case Some(e) =>
        RephraseFrom(s[e..], replacers, k + 1);
        RephraseFrom(s[e..], replacers, 1);
      case None =>
        RephraseFrom(s[1..], replacers, k);
        RephraseFrom(s[1..], replacers, 0);
    }
  }

  /** Text outside tokens is unchanged. */
  lemma RephrasePlain(a: string, b: string, replacers: map<string, string>)
    requires '{' !in a
    ensures RephraseFileTemplate(a + b, replacers) == a + RephraseFileTemplate(b, replacers)
  {
    ReplaceTokensPlain(a, b, FileReplacer(replacers), 0);
  }

  // ---------------------------------------------------------------------
  // downloadSavedRow

  /** The extension read off a URL: after the last `.` of the hint (or the
      `srcUrl` without one), cut at `?`, lower-cased. */
  function ExtFromUrl(c: Candidate): string {
    ToLower(BeforeFirst(AfterLast(Or(c.fileNameHint.GetOr(""), c.srcUrl), '.'), '?'))
  }

  /** The replacers `downloadSavedRow` offers the file template. */
  function SavedReplacers(h8: string, ext: string, c: Candidate): map<string, string> {
    map["hash8" := h8, "hash" := h8, "ext" := ext,
        "basename" := Or(c.fileNameHint.GetOr(""), "bn404" + h8 + "." + ext)]
  }

  /** The file name the template renders to. */
  function SavedFileName(fileTemplate: string, h8: string, ext: string, c: Candidate): string {
    RephraseFileTemplate(fileTemplate, SavedReplacers(h8, ext, c))
  }

  /** `downloadSavedRow` for a successful download (the `ts` stamp is left out). */
  function DownloadSavedRow(dl: Download, topic: string, fileTemplate: string, absSrcDirPath: string,
                            c: Candidate, digest: seq<bv8> -> string): (r: SavedRow)
    requires dl.DownloadOk?
    ensures r.topic == topic && r.candidate == c && r.ms == dl.ms && r.bytes == |dl.buffer|
    ensures r.hash8 <= Sha256(digest, dl.buffer) && |r.hash8| == if |Sha256(digest, dl.buffer)| < 8 then |Sha256(digest, dl.buffer)| else 8
    ensures r.mime == dl.mime.GetOr("")
  {
    var h8 := Hash8(Sha256(digest, dl.buffer));
    var ext := ExtFromMime(dl.mime, Some(ExtFromUrl(c)));
    var fileName := SavedFileName(fileTemplate, h8, ext, c);
    SavedRow(topic, c, dl.ms, h8, ext, dl.mime.GetOr(""), |dl.buffer|, PathJoin(absSrcDirPath, fileName))
  }

  /** The extension comes from the MIME table when the type is known, from
      the URL (else `bin`) when there is no MIME type. */
  lemma SavedRowExt(dl: Download, topic: string, fileTemplate: string, absSrcDirPath: string,
                    c: Candidate, digest: seq<bv8> -> string)
    requires dl.DownloadOk?
    ensures var r := DownloadSavedRow(dl, topic, fileTemplate, absSrcDirPath, c, digest);
      (dl.mime.Some? && dl.mime.value != "" && MimeTable(MimeEssence(dl.mime.value)).Some? ==>
         r.ext == MimeTable(MimeEssence(dl.mime.value)).value)
      && (dl.mime.None? ==> r.ext == Or(ExtFromUrl(c), "bin"))
  {
  }

  /** `{w}.{ext}` renders as the two values around a dot. */
  lemma RephraseNameDotExt(w: string, replacers: map<string, string>)
    requires IsWord(w) && w in replacers && "ext" in replacers
    ensures RephraseFileTemplate("{" + w + "}.{ext}", replacers) == replacers[w] + "." + replacers["ext"]
  {
    assert IsWord("ext");
    RephraseToken("ext", "", replacers);
    assert "{ext}" == "{" + "ext" + "}" + "";
    RephrasePlain(".", "{ext}", replacers);
    assert "{" + w + "}.{ext}" == "{" + w + "}" + ".{ext}";
    RephraseToken(w, ".{ext}", replacers);
    assert RephraseFileTemplate("", replacers) == "";
  }

  /** `{w}` alone renders as its value. */
  lemma RephraseSingle(w: string, replacers: map<string, string>)
    requires IsWord(w) && w in replacers
    ensures RephraseFileTemplate("{" + w + "}", replacers) == replacers[w]
  {
    assert "{" + w + "}" == "{" + w + "}" + "";
    RephraseToken(w, "", replacers);
    assert RephraseFileTemplate("", replacers) == "";
  }

  /** With the default template `{hash8}.{ext}` the file is `<hash8>.<ext>`
      in the source folder; `{hash}` is the same eight characters. */
  lemma SavedRowDefaultPath(dl: Download, topic: string, absSrcDirPath: string,
                            c: Candidate, digest: seq<bv8> -> string)
    requires dl.DownloadOk?
    ensures var r := DownloadSavedRow(dl, topic, "{hash8}.{ext}", absSrcDirPath, c, digest);
      r.savedPath == PathJoin(absSrcDirPath, r.hash8 + "." + r.ext)
    ensures var r := DownloadSavedRow(dl, topic, "{hash}.{ext}", absSrcDirPath, c, digest);
      r.savedPath == PathJoin(absSrcDirPath, r.hash8 + "." + r.ext)
  {
    SavedRowHash8Path(dl, topic, absSrcDirPath, c, digest);
    SavedRowHashOnlyPath(dl, topic, absSrcDirPath, c, digest);
  }

  lemma SavedRowHash8Path(dl: Download, topic: string, absSrcDirPath: string,
                          c: Candidate, digest: seq<bv8> -> string)
    requires dl.DownloadOk?
    ensures var r := DownloadSavedRow(dl, topic, "{hash8}.{ext}", absSrcDirPath, c, digest);
      r.savedPath == PathJoin(absSrcDirPath, r.hash8 + "." + r.ext)
  {
    assert "{hash8}.{ext}" == "{" + "hash8" + "}.{ext}";
    SavedRowHashPath(dl, topic, absSrcDirPath, c, digest, "hash8");
  }

  lemma SavedRowHashOnlyPath(dl: Download, topic: string, absSrcDirPath: string,
                             c: Candidate, digest: seq<bv8> -> string)
    requires dl.DownloadOk?
    ensures var r := DownloadSavedRow(dl, topic, "{hash}.{ext}", absSrcDirPath, c, digest);
      r.savedPath == PathJoin(absSrcDirPath, r.hash8 + "." + r.ext)
  {
    assert "{hash}.{ext}" == "{" + "hash" + "}.{ext}";
    SavedRowHashPath(dl, topic, absSrcDirPath, c, digest, "hash");
  }

  lemma SavedRowHashPath(dl: Download, topic: string, absSrcDirPath: string,
                         c: Candidate, digest: seq<bv8> -> string, w: string)
    requires dl.DownloadOk? && (w == "hash8" || w == "hash")
    ensures var r := DownloadSavedRow(dl, topic, "{" + w + "}.{ext}", absSrcDirPath, c, digest);
      r.savedPath == PathJoin(absSrcDirPath, r.hash8 + "." + r.ext)
  {
    var h8 := Hash8(Sha256(digest, dl.buffer));
    var ext := ExtFromMime(dl.mime, Some(ExtFromUrl(c)));
    HashFileName(w, h8, ext, c);
  }

  /** `{hash8}` and `{hash}` both render as the eight hex characters. */
  lemma HashFileName(w: string, h8: string, ext: string, c: Candidate)
    requires w == "hash8" || w == "hash"
    ensures SavedFileName("{" + w + "}.{ext}", h8, ext, c) == h8 + "." + ext
  {
    assert IsWord(w);
    RephraseNameDotExt(w, SavedReplacers(h8, ext, c));
  }

  /** Equal buffers give equal `hash8`, and then the same name under the same
      template, MIME type and candidate. */
  lemma SavedRowContentAddressed(dl1: Download, dl2: Download, topic: string, fileTemplate: string,
                                 absSrcDirPath: string, c: Candidate, digest: seq<bv8> -> string)
    requires dl1.DownloadOk? && dl2.DownloadOk? && dl1.buffer == dl2.buffer
    ensures DownloadSavedRow(dl1, topic, fileTemplate, absSrcDirPath, c, digest).hash8
         == DownloadSavedRow(dl2, topic, fileTemplate, absSrcDirPath, c, digest).hash8
    ensures dl1.mime == dl2.mime ==>
      DownloadSavedRow(dl1, topic, fileTemplate, absSrcDirPath, c, digest).savedPath
      == DownloadSavedRow(dl2, topic, fileTemplate, absSrcDirPath, c, digest).savedPath
  {
  }

  /** `{basename}` renders as the hint, or as a synthetic `bn404<hash8>.<ext>`
      name without one. */
  lemma SavedRowBasename(dl: Download, topic: string, absSrcDirPath: string,
                         c: Candidate, digest: seq<bv8> -> string)
    requires dl.DownloadOk?
    ensures var r := DownloadSavedRow(dl, topic, "{basename}", absSrcDirPath, c, digest);
      (c.fileNameHint.Some? && c.fileNameHint.value != "" ==> r.savedPath == PathJoin(absSrcDirPath, c.fileNameHint.value))
      && (c.fileNameHint.None? ==> r.savedPath == PathJoin(absSrcDirPath, "bn404" + r.hash8 + "." + r.ext))
  {
    var h8 := Hash8(Sha256(digest, dl.buffer));
    var ext := ExtFromMime(dl.mime, Some(ExtFromUrl(c)));
    BasenameFileName(h8, ext, c);
  }

  lemma BasenameFileName(h8: string, ext: string, c: Candidate)
    ensures SavedFileName("{basename}", h8, ext, c) == Or(c.fileNameHint.GetOr(""), "bn404" + h8 + "." + ext)
  {
    assert IsWord("basename");
    RephraseSingle("basename", SavedReplacers(h8, ext, c));
    assert "{basename}" == "{" + "basename" + "}";
  }
}
