/** `scrape/stages/fs-manager/auxil.ts`: the helpers of the older file
    manager. They render folder and file templates, build the history rows,
    escape CSV fields, and write one history log file per non-empty
    category. Random bytes, the digest and the file system enter as values. */
module Auxil {
  import opened Wrappers
  import opened JsString
  import opened Paths
  import Fs
  import opened Crypt
  import ScrapeTypes
  import ScrapeUtils

  type ThreeBytes = b: seq<bv8> | |b| == 3 witness [0, 0, 0]
  type FourBytes = b: seq<bv8> | |b| == 4 witness [0, 0, 0, 0]

  // ---------------------------------------------------------------------
  // Templates

  /** The replacement `rephraseDirTemplate` puts in: a non-empty value is
      slugged with the fallback `T404` and six random hex digits; an empty one
      becomes `D404-` and the slug of eight random hex digits. */
  function DirReplacement(replaceWith: string, r3: ThreeBytes, r4: FourBytes): string {
    if replaceWith != "" then Slugify(replaceWith, "T404" + RandomHash(r3), true)
    else "D404-" + Slugify(RandomHash(r4), "", true)
  }

  /** `rephraseDirTemplate`: a string `replace`, so only the first occurrence. */
  function RephraseDirTemplate(folderTemplate: string, searchValue: string, replaceWith: string,
                               r3: ThreeBytes, r4: FourBytes): string {
    ReplaceFirst(folderTemplate, searchValue, DirReplacement(replaceWith, r3, r4))
  }

  lemma {:induction false} DashRunsKeeps(s: string)
    requires forall i :: 0 <= i < |s| ==> IsLetterOrNumber(s[i])
    ensures DashRuns(s) == s
    decreases |s|
  {
    if s != [] {
      assert forall i :: 0 <= i < |s[1..]| ==> s[1..][i] == s[i + 1];
      DashRunsKeeps(s[1..]);
    }
  }

  /** Letters and numbers are safe on Windows and are neither `$` nor `-`. */
  lemma AlnumChars(h: string)
    requires forall i :: 0 <= i < |h| ==> IsLetterOrNumber(h[i])
    ensures forall i :: 0 <= i < |h| ==> !Fs.IsWindowsUnsafe(h[i]) && h[i] != '$' && h[i] != '-'
  {
    forall i | 0 <= i < |h|
      ensures !Fs.IsWindowsUnsafe(h[i]) && h[i] != '$' && h[i] != '-'
    {
      var c := h[i];
      assert !(c in "<>:\"/\\|?*");
    }
  }

  /** A hex digit is a lower-case letter or a digit. */
  lemma HexChars(h: string)
    requires forall i :: 0 <= i < |h| ==> IsHexDigit(h[i])
    ensures forall i :: 0 <= i < |h| ==>
      IsLetterOrNumber(h[i]) && !('A' <= h[i] <= 'Z') && !Fs.IsWindowsUnsafe(h[i]) && h[i] != '$' && h[i] != '-'
  {
    assert forall i :: 0 <= i < |h| ==> IsLetterOrNumber(h[i]) && !('A' <= h[i] <= 'Z');
    AlnumChars(h);
  }

  lemma LowerKeepsLower(h: string)
    requires forall i :: 0 <= i < |h| ==> !('A' <= h[i] <= 'Z')
    ensures ToLower(h) == h
  {
    assert forall i :: 0 <= i < |h| ==> ToLower(h)[i] == h[i];
  }

  lemma TrimKeeps(h: string)
    requires h != [] && h[0] != '-' && h[|h| - 1] != '-'
    ensures TrimDashes(h) == h
  {
    assert LeadingDashes(h) == 0;
    assert TrailingDashesStart(h) == |h|;
    assert h[0..|h|] == h;
  }

  /** A non-empty run of lower-case hex digits is its own slug body. */
  lemma HexSlugBody(h: string)
    requires h != [] && forall i :: 0 <= i < |h| ==> IsHexDigit(h[i])
    ensures SlugBody(h) == h && HasLetterOrNumber(h)
  {
    HexChars(h);
    DashRunsKeeps(h);
    TrimKeeps(h);
    LowerKeepsLower(h);
    assert IsLetterOrNumber(h[0]);
  }

  lemma HexSlug(h: string, def: string)
    requires h != [] && forall i :: 0 <= i < |h| ==> IsHexDigit(h[i])
    ensures Slugify(h, def, true) == h
  {
    HexSlugBody(h);
    HexChars(h);
    Fs.NoUnsafeFixed(h);
  }

  lemma NoDollar(a: string, b: string)
    requires '$' !in a && '$' !in b
    ensures '$' !in a + b
  {
    assert forall i :: 0 <= i < |a + b| ==> (a + b)[i] == if i < |a| then a[i] else b[i - |a|];
  }

  lemma DirEmpty(r3: ThreeBytes, r4: FourBytes)
    ensures DirReplacement("", r3, r4) == "D404-" + RandomHash(r4)
    ensures '$' !in DirReplacement("", r3, r4)
  {
    var h := RandomHash(r4);
    HexSlug(h, "");
    HexChars(h);
    NoDollar("D404-", h);
  }

  lemma DirSlug(replaceWith: string, r3: ThreeBytes, r4: FourBytes)
    requires HasLetterOrNumber(replaceWith)
    ensures DirReplacement(replaceWith, r3, r4) == SlugBody(replaceWith)
    ensures '$' !in DirReplacement(replaceWith, r3, r4)
  {
    SlugifyFallback(replaceWith, "T404" + RandomHash(r3), true);
    SlugBodyShape(replaceWith);
    ShapedNoDollar(SlugBody(replaceWith));
  }

  lemma ShapedNoDollar(t: string)
    requires SlugShaped(t)
    ensures '$' !in t
  {
    assert forall i :: 0 <= i < |t| ==> t[i] != '$';
  }

  lemma DirFallback(replaceWith: string, r3: ThreeBytes, r4: FourBytes)
    requires replaceWith != "" && !HasLetterOrNumber(replaceWith)
    ensures DirReplacement(replaceWith, r3, r4) == "T404" + RandomHash(r3)
    ensures '$' !in DirReplacement(replaceWith, r3, r4)
  {
    SlugBodyShape(replaceWith);
    var h := RandomHash(r3);
    HexChars(h);
    var t := "T404" + h;
    assert forall i :: 0 <= i < |t| ==> IsLetterOrNumber(t[i]) by {
      assert forall i :: 4 <= i < |t| ==> t[i] == h[i - 4];
      assert forall i :: 0 <= i < 4 ==> t[i] == "T404"[i];
    }
    AlnumChars(t);
    Fs.NoUnsafeFixed(t);
  }

  /** The directory replacement: an empty value gives `D404-` and eight random
      hex digits; a value with a letter or number gives its slug body; any other
      non-empty value gives `T404` and six random hex digits. None of these
      holds a `$`, so no replacement pattern applies. */
  lemma DirReplacementFacts(replaceWith: string, r3: ThreeBytes, r4: FourBytes)
    ensures replaceWith == "" ==> DirReplacement(replaceWith, r3, r4) == "D404-" + RandomHash(r4)
    ensures HasLetterOrNumber(replaceWith) ==> DirReplacement(replaceWith, r3, r4) == SlugBody(replaceWith)
    ensures replaceWith != "" && !HasLetterOrNumber(replaceWith) ==>
      DirReplacement(replaceWith, r3, r4) == "T404" + RandomHash(r3)
    ensures '$' !in DirReplacement(replaceWith, r3, r4)
  {
    if replaceWith == "" {
      DirEmpty(r3, r4);
    } else if HasLetterOrNumber(replaceWith) {
      DirSlug(replaceWith, r3, r4);
    } else {
      DirFallback(replaceWith, r3, r4);
    }
  }

  /** Only the first occurrence of the search value is replaced; a template
      without it is kept as it is. */
  lemma RephraseDirFirst(folderTemplate: string, searchValue: string, replaceWith: string,
                         r3: ThreeBytes, r4: FourBytes)
    ensures IndexOf(folderTemplate, searchValue).None? ==>
      RephraseDirTemplate(folderTemplate, searchValue, replaceWith, r3, r4) == folderTemplate
    ensures IndexOf(folderTemplate, searchValue).Some? ==>
      var p := IndexOf(folderTemplate, searchValue).value;
      RephraseDirTemplate(folderTemplate, searchValue, replaceWith, r3, r4)
      == folderTemplate[..p] + DirReplacement(replaceWith, r3, r4) + folderTemplate[p + |searchValue|..]
  {
    DirReplacementFacts(replaceWith, r3, r4);
    ReplaceFirstPlain(folderTemplate, searchValue, DirReplacement(replaceWith, r3, r4));
  }

  /** The callback of `rephraseFileTemplate` for the `k`-th token: a truthy
      value from the map, else the (always truthy) text of an inherited
      `Object.prototype` member, else the word, `404-` and six random hex
      digits. An own value, even an empty one, hides the inherited member. */
  function HistoryReplacer(filenames: map<string, string>, rand: nat -> ThreeBytes): (string, nat) -> string {
    (w: string, k: nat) => HistoryName(filenames, rand, w, k)
  }

  function HistoryName(filenames: map<string, string>, rand: nat -> ThreeBytes, w: string, k: nat): string {
    if w in filenames && filenames[w] != "" then filenames[w]
    else if w !in filenames && w in ObjectPrototypeKeys then InheritedText(w)
    else w + "404-" + RandomHash(rand(k))
  }

  /** `rephraseFileTemplate` with the default pattern `/\{(\w+)\}/g`. */
  function RephraseFileTemplate(fileTemplate: string, filenames: map<string, string>, rand: nat -> ThreeBytes): string {
    ReplaceTokens(fileTemplate, HistoryReplacer(filenames, rand), 0)
  }

  /** The `k`-th token (`RephraseFileTemplate` starts the count at 0): a
      truthy value renders as that value, an inherited `Object.prototype`
      name without an own entry as that member's text, and any other word as
      the word, `404-` and the six hex digits of the `k`-th `randomHash(3)`.
      The scan goes on after the token with the next count. */
  lemma FileTemplateToken(w: string, rest: string, filenames: map<string, string>, rand: nat -> ThreeBytes, k: nat)
    requires IsWord(w)
    ensures var r := ReplaceTokens("{" + w + "}" + rest, HistoryReplacer(filenames, rand), k);
      var tail := ReplaceTokens(rest, HistoryReplacer(filenames, rand), k + 1);
      (w in filenames && filenames[w] != "" ==> r == filenames[w] + tail)
      && (w !in filenames && w in ObjectPrototypeKeys ==> r == InheritedText(w) + tail)
      && (!(w in filenames && filenames[w] != "") && !(w !in filenames && w in ObjectPrototypeKeys) ==>
            var h := RandomHash(rand(k));
            r == w + "404-" + h + tail && |h| == 6 && forall i :: 0 <= i < 6 ==> IsHexDigit(h[i]))
  {
    ReplaceTokensToken(w, rest, HistoryReplacer(filenames, rand), k);
    HistoryReplacerAt(filenames, rand, w, k);
  }

  lemma HistoryReplacerAt(filenames: map<string, string>, rand: nat -> ThreeBytes, w: string, k: nat)
    ensures w in filenames && filenames[w] != "" ==> HistoryReplacer(filenames, rand)(w, k) == filenames[w]
    ensures w !in filenames && w in ObjectPrototypeKeys ==> HistoryReplacer(filenames, rand)(w, k) == InheritedText(w)
    ensures !(w in filenames && filenames[w] != "") && !(w !in filenames && w in ObjectPrototypeKeys) ==>
      HistoryReplacer(filenames, rand)(w, k) == w + "404-" + RandomHash(rand(k))
  {
  }

  /** Text with no `{` is kept as it is. */
  lemma FileTemplatePlain(a: string, b: string, filenames: map<string, string>, rand: nat -> ThreeBytes)
    requires '{' !in a
    ensures RephraseFileTemplate(a + b, filenames, rand) == a + RephraseFileTemplate(b, filenames, rand)
  {
    ReplaceTokensPlain(a, b, HistoryReplacer(filenames, rand), 0);
  }

  // ---------------------------------------------------------------------
  // History rows

  /** `DownloadOK` of `scrape/types.ts`. */
  datatype DownloadOk = DownloadOk(buffer: seq<bv8>, mime: Option<string>, finalUrl: Option<string>, ms: int)

  /** A `saved` history row; `candidate` holds the spread candidate, with its
      `srcUrl` overwritten. The timestamp is left out. */
  datatype SavedRow = SavedRow(candidate: ScrapeTypes.Candidate, topic: string, hash8: string, ext: string,
                               mime: string, bytes: nat, ms: int, savedPath: string, status: string)

  /** A `failed` history row, without its timestamp. */
  datatype FailedRow = FailedRow(candidate: ScrapeTypes.Candidate, topic: string, status: string, reason: string)

  /** The names `createSavedRow` offers the file template. */
  function SavedFilenames(h8: string, ext: string, c: ScrapeTypes.Candidate): map<string, string> {
    map["hash8" := h8, "hash" := h8, "ext" := ext, "basename" := c.fileNameHint.GetOr("")]
  }

  /** `createSavedRow`; `fileName` is the optional override. */
  function CreateSavedRow(dwd: DownloadOk, topic: string, fileTemplate: string, parentAbsDirPath: string,
                          candidate: ScrapeTypes.Candidate, fileName: Option<string>,
                          digest: seq<bv8> -> string, rand: nat -> ThreeBytes): SavedRow {
    var h8 := Hash8(Sha256(digest, dwd.buffer));
    var ext := Fs.ExtFromMime(dwd.mime, Some(ScrapeUtils.ExtFromUrl(candidate)));
    var name := Or(fileName.GetOr(""), RephraseFileTemplate(fileTemplate, SavedFilenames(h8, ext, candidate), rand));
    SavedRow(candidate.(srcUrl := Or(dwd.finalUrl.GetOr(""), candidate.pageUrl)), topic, h8, ext,
             dwd.mime.GetOr(""), |dwd.buffer|, dwd.ms, PathJoin(parentAbsDirPath, name), "saved")
  }

  /** The saved row: the source URL is the final URL, else the page URL; the
      other candidate fields are kept; `bytes` is the buffer length; the
      status is `saved`; the path is the parent joined with the file name,
      which is the override when it is non-empty; the hash is the prefix of at
      most eight characters of the digest. */
  lemma SavedRowFields(dwd: DownloadOk, topic: string, fileTemplate: string, parentAbsDirPath: string,
                       candidate: ScrapeTypes.Candidate, fileName: Option<string>,
                       digest: seq<bv8> -> string, rand: nat -> ThreeBytes)
    ensures var r := CreateSavedRow(dwd, topic, fileTemplate, parentAbsDirPath, candidate, fileName, digest, rand);
      (dwd.finalUrl.Some? && dwd.finalUrl.value != "" ==> r.candidate.srcUrl == dwd.finalUrl.value)
      && (dwd.finalUrl.None? || dwd.finalUrl.value == "" ==> r.candidate.srcUrl == candidate.pageUrl)
      && r.candidate.pageUrl == candidate.pageUrl && r.candidate.source == candidate.source
      && r.candidate.alt == candidate.alt && r.candidate.fileNameHint == candidate.fileNameHint
      && r.topic == topic && r.bytes == |dwd.buffer| && r.ms == dwd.ms && r.status == "saved"
      && r.hash8 <= digest(dwd.buffer) && |r.hash8| <= 8
      && (fileName.Some? && fileName.value != "" ==> r.savedPath == PathJoin(parentAbsDirPath, fileName.value))
  {
  }

  /** A `{basename}` template with no truthy basename renders as the
      placeholder `basename404-` and six random hex digits. */
  lemma BasenamePlaceholder(filenames: map<string, string>, rand: nat -> ThreeBytes)
    requires "basename" !in filenames || filenames["basename"] == ""
    ensures RephraseFileTemplate("{basename}", filenames, rand) == "basename404-" + RandomHash(rand(0))
  {
    BasenameToken(filenames, rand, 0);
  }

  lemma BasenameToken(filenames: map<string, string>, rand: nat -> ThreeBytes, k: nat)
    requires "basename" !in filenames || filenames["basename"] == ""
    ensures ReplaceTokens("{basename}", HistoryReplacer(filenames, rand), k) == "basename404-" + RandomHash(rand(k))
  {
    BasenameNotInherited();
    PlaceholderToken("basename", filenames, rand, k);
    assert "{" + "basename" + "}" == "{basename}";
    assert "basename" + "404-" == "basename404-";
  }

  /** A lone token with neither a truthy value nor an inherited name. */
  lemma PlaceholderToken(w: string, filenames: map<string, string>, rand: nat -> ThreeBytes, k: nat)
    requires IsWord(w) && (w !in filenames || filenames[w] == "") && w !in ObjectPrototypeKeys
    ensures ReplaceTokens("{" + w + "}", HistoryReplacer(filenames, rand), k) == w + "404-" + RandomHash(rand(k))
  {
    ReplaceTokensToken(w, "", HistoryReplacer(filenames, rand), k);
    assert "{" + w + "}" + "" == "{" + w + "}";
    HistoryReplacerAt(filenames, rand, w, k);
  }

  lemma BasenameNotInherited()
    ensures IsWord("basename") && "basename" !in ObjectPrototypeKeys
  {
  }

  /** With no hint and no override, a `{basename}` template names the file
      with the placeholder. */
  lemma SavedRowNoHint(dwd: DownloadOk, topic: string, parentAbsDirPath: string,
                       candidate: ScrapeTypes.Candidate, digest: seq<bv8> -> string, rand: nat -> ThreeBytes)
    requires candidate.fileNameHint.None? || candidate.fileNameHint.value == ""
    ensures var r := CreateSavedRow(dwd, topic, "{basename}", parentAbsDirPath, candidate, None, digest, rand);
      r.savedPath == PathJoin(parentAbsDirPath, "basename404-" + RandomHash(rand(0)))
  {
    var h8 := Hash8(Sha256(digest, dwd.buffer));
    var ext := Fs.ExtFromMime(dwd.mime, Some(ScrapeUtils.ExtFromUrl(candidate)));
    BasenamePlaceholder(SavedFilenames(h8, ext, candidate), rand);
  }

  /** `createFailedRow`. */
  function CreateFailedRow(error: Error, candidate: ScrapeTypes.Candidate, topic: string): FailedRow {
    FailedRow(candidate, topic, "failed", Or(Or(error.message, error.name), "unknown"))
  }

  /** The reason is the message, else the name, else `unknown`: never empty. */
  lemma FailedRowReason(error: Error, candidate: ScrapeTypes.Candidate, topic: string)
    ensures var r := CreateFailedRow(error, candidate, topic);
      r.status == "failed" && r.reason != "" && r.candidate == candidate && r.topic == topic
      && (error.message != "" ==> r.reason == error.message)
      && (error.message == "" && error.name != "" ==> r.reason == error.name)
      && (error.message == "" && error.name == "" ==> r.reason == "unknown")
  {
  }

  // ---------------------------------------------------------------------
  // CSV

  /** A row value: a string or an integer (or `undefined` for a missing one). */
  datatype CsvValue = Text(s: string) | Number(n: int) | Undefined

  /** `String(val)`. */
  function ValueText(v: CsvValue): string {
    match v
    case Text(s) => s
    case Number(n) => IntToString(n)
    case Undefined => "undefined"
  }

  predicate NeedsQuotes(entry: string) {
    '"' in entry || ',' in entry || '\n' in entry
  }

  /** `entry.replace(/"/g, '""')`. */
  function DoubleQuotes(s: string): string
    decreases |s|
  {
    if s == [] then ""
    else (if s[0] == '"' then "\"\"" else [s[0]]) + DoubleQuotes(s[1..])
  }

  /** The field escaping of `parseCSVEntry` on the text of a value. */
  function Escape(entry: string): string {
    if NeedsQuotes(entry) then "\"" + DoubleQuotes(entry) + "\"" else entry
  }

  /** `parseCSVEntry`. */
  function CsvEntry(v: CsvValue): string {
    Escape(ValueText(v))
  }

  function Entries(col: seq<CsvValue>): (r: seq<string>)
    ensures |r| == |col|
    ensures forall i :: 0 <= i < |col| ==> r[i] == CsvEntry(col[i])
  {
    seq(|col|, i requires 0 <= i < |col| => CsvEntry(col[i]))
  }

  /** `parseCSVRow`. */
  function CsvRow(col: seq<CsvValue>): string {
    Join(Entries(col), ",")
  }

  /** The texts the row's values stand for. */
  function Texts(col: seq<CsvValue>): (r: seq<string>)
    ensures |r| == |col|
    ensures forall i :: 0 <= i < |col| ==> r[i] == ValueText(col[i])
  {
    seq(|col|, i requires 0 <= i < |col| => ValueText(col[i]))
  }

  /** A reader of one line of RFC 4180 fields (section 2): the rest of a quoted
      field after its opening quote, a doubled quote standing for one quote. */
  function ReadQuoted(s: string): (r: (string, string))
    ensures |r.1| <= |s|
    decreases |s|
  {
    if s == [] then ("", "")
    else if s[0] == '"' then
      if |s| >= 2 && s[1] == '"' then var q := ReadQuoted(s[2..]); ("\"" + q.0, q.1)
      else ("", s[1..])
    else var q := ReadQuoted(s[1..]); ([s[0]] + q.0, q.1)
  }

  /** An unquoted field runs up to the next comma. */
  function ReadPlain(s: string): (r: (string, string))
    ensures |r.1| <= |s|
    decreases |s|
  {
    if s == [] || s[0] == ',' then ("", s)
    else var q := ReadPlain(s[1..]); ([s[0]] + q.0, q.1)
  }

  function ReadField(s: string): (r: (string, string))
    ensures |r.1| <= |s|
  {
    if s != [] && s[0] == '"' then ReadQuoted(s[1..]) else ReadPlain(s)
  }

  /** The fields of a line, in order. */
  function ReadRow(line: string): (r: seq<string>)
    ensures |r| >= 1
    decreases |line|
  {
    var f := ReadField(line);
    if f.1 != [] && f.1[0] == ',' then [f.0] + ReadRow(f.1[1..]) else [f.0]
  }

  lemma {:induction false} ReadQuotedDoubled(s: string, t: string)
    requires t == [] || t[0] == ','
    ensures ReadQuoted(DoubleQuotes(s) + "\"" + t) == (s, t)
    decreases |s|
  {
    var x := DoubleQuotes(s) + "\"" + t;
    if s == [] {
      assert x == "\"" + t;
      assert x[1..] == t;
    } else {
      ReadQuotedDoubled(s[1..], t);
      var y := DoubleQuotes(s[1..]) + "\"" + t;
      if s[0] == '"' {
        assert x == "\"\"" + y;
        assert x[2..] == y;
      } else {
        assert x == [s[0]] + y;
        assert x[1..] == y;
      }
      assert [s[0]] + s[1..] == s;
    }
  }

  lemma {:induction false} ReadPlainNoComma(s: string, t: string)
    requires ',' !in s
    requires t == [] || t[0] == ','
    ensures ReadPlain(s + t) == (s, t)
    decreases |s|
  {
    if s == [] {
      assert s + t == t;
    } else {
      assert (s + t)[1..] == s[1..] + t;
      ReadPlainNoComma(s[1..], t);
      assert [s[0]] + s[1..] == s;
    }
  }

  /** An escaped field reads back as the text it escapes, leaving the rest of
      the line after it. */
  lemma ReadEscaped(e: string, t: string)
    requires t == [] || t[0] == ','
    ensures ReadField(Escape(e) + t) == (e, t)
  {
    if NeedsQuotes(e) {
      var x := Escape(e) + t;
      assert x == "\"" + (DoubleQuotes(e) + "\"" + t);
      assert x[1..] == DoubleQuotes(e) + "\"" + t;
      ReadQuotedDoubled(e, t);
    } else if e == [] {
      assert Escape(e) + t == t;
    } else {
      assert (Escape(e) + t)[0] == e[0];
      ReadPlainNoComma(e, t);
    }
  }

  /** Escaping never merges two different texts. */
  lemma EscapeInjective(a: string, b: string)
    requires Escape(a) == Escape(b)
    ensures a == b
  {
    ReadEscaped(a, "");
    ReadEscaped(b, "");
    assert Escape(a) + "" == Escape(a);
    assert Escape(b) + "" == Escape(b);
  }

  lemma CsvRowCons(col: seq<CsvValue>)
    requires |col| >= 2
    ensures CsvRow(col) == CsvEntry(col[0]) + ("," + CsvRow(col[1..]))
    ensures Texts(col) == [ValueText(col[0])] + Texts(col[1..])
  {
    var es := Entries(col);
    assert Entries(col[1..]) == es[1..];
  }

  /** A CSV line reads back as the texts of its values, in order and as many. */
  lemma {:induction false} CsvRowRoundTrip(col: seq<CsvValue>)
    requires col != []
    ensures ReadRow(CsvRow(col)) == Texts(col)
    decreases |col|
  {
    if |col| == 1 {
      ReadEscaped(ValueText(col[0]), "");
      assert CsvRow(col) + "" == CsvRow(col);
    } else {
      var rest := CsvRow(col[1..]);
      CsvRowCons(col);
      ReadEscaped(ValueText(col[0]), "," + rest);
      assert ("," + rest)[1..] == rest;
      CsvRowRoundTrip(col[1..]);
    }
  }

  // ---------------------------------------------------------------------
  // History log files

  /** A row object as its keys and values, in property order. */
  type Row = seq<(string, CsvValue)>

  function Keys(row: Row): (r: seq<CsvValue>)
    ensures |r| == |row|
    ensures forall i :: 0 <= i < |row| ==> r[i] == Text(row[i].0)
  {
    seq(|row|, i requires 0 <= i < |row| => Text(row[i].0))
  }

  function Values(row: Row): (r: seq<CsvValue>)
    ensures |r| == |row|
    ensures forall i :: 0 <= i < |row| ==> r[i] == row[i].1
  {
    seq(|row|, i requires 0 <= i < |row| => row[i].1)
  }

  /** A history category (`saved`, `failed`, `skipped`) with its rows. */
  datatype Category = Category(name: string, rows: seq<Row>)

  datatype LogExt = JsonExt | CsvExt

  function ExtText(ext: LogExt): string {
    if ext == JsonExt then "json" else "csv"
  }

  /** The file system calls (each may throw) and `JSON.stringify`, which is
      not modelled. */
  datatype LogFs = LogFs(cwd: ScrapeTypes.Cwd,
                         mkdir: (string, bool) -> Option<Thrown>,
                         writeFile: (string, string) -> Option<Thrown>,
                         json: (string, seq<Row>) -> string)

  /** The `reduce` over the categories: does any hold a row? */
  predicate AnyRows(history: seq<Category>) {
    exists i :: 0 <= i < |history| && history[i].rows != []
  }

  /** One CSV line per row, from its values. */
  function RowLines(rows: seq<Row>): (r: seq<string>)
    ensures |r| == |rows|
    ensures forall i :: 0 <= i < |rows| ==> r[i] == CsvRow(Values(rows[i]))
  {
    seq(|rows|, i requires 0 <= i < |rows| => CsvRow(Values(rows[i])))
  }

  /** The header from the first row's keys, then the row lines. */
  function CsvLines(rows: seq<Row>): seq<string>
    requires rows != []
  {
    [CsvRow(Keys(rows[0]))] + RowLines(rows)
  }

  function LogContent(fs: LogFs, c: Category, ext: LogExt): string
    requires c.rows != []
  {
    if ext == JsonExt then fs.json(c.name, c.rows) else Join(CsvLines(c.rows), "\n")
  }

  /** `path.resolve(absDir, "./<name>.<ext>")`. */
  function LogFilePath(fs: LogFs, absDir: string, name: string, ext: LogExt): string {
    ToString(Resolve(fs.cwd, absDir, "./" + name + "." + ExtText(ext)))
  }

  function Prepend(ps: seq<string>, r: Result<seq<string>, Thrown>): Result<seq<string>, Thrown> {
    match r
    case Success(qs) => Success(ps + qs)
    case Failure(t) => Failure(t)
  }

  /** The `for ... in` loop: empty categories are skipped, a write that
      throws ends the run, and each written path is pushed. */
  function WriteLogs(fs: LogFs, absDir: string, history: seq<Category>, ext: LogExt): Result<seq<string>, Thrown>
    decreases |history|
  {
    if history == [] then Success([])
    else if history[0].rows == [] then WriteLogs(fs, absDir, history[1..], ext)
    else
      var p := LogFilePath(fs, absDir, history[0].name, ext);
      match fs.writeFile(p, LogContent(fs, history[0], ext))
      case Some(t) => Failure(t)
      case None => Prepend([p], WriteLogs(fs, absDir, history[1..], ext))
  }

  /** `createAndWriteHistoryLogFiles`: nothing at all when every category is
      empty; else the folder is made, which may throw, and the files written. */
  function HistoryLogFiles(fs: LogFs, absDir: string, history: seq<Category>, ext: LogExt,
                           mkdirRecursive: bool): Result<seq<string>, Thrown> {
    if !AnyRows(history) then Success([])
    else
      match fs.mkdir(absDir, mkdirRecursive)
      case Some(t) => Failure(t)
      case None => WriteLogs(fs, absDir, history, ext)
  }

  /** `parseCSVRow` of one row's values. */
  method CsvRowOf(row: Row) returns (line: string)
    ensures line == CsvRow(Values(row))
  {
    line := CsvRow(Values(row));
  }

  lemma PrefixSnoc<T>(s: seq<T>, i: nat)
    requires i < |s|
    ensures s[..i + 1] == s[..i] + [s[i]]
  {
  }

  lemma CsvLinesAll(rows: seq<Row>)
    requires rows != []
    ensures CsvLines(rows) == [CsvRow(Keys(rows[0]))] + RowLines(rows)[..|rows|]
  {
    assert RowLines(rows)[..|rows|] == RowLines(rows);
  }

  /** The CSV branch: header, then one line per row, joined with LF. */
  method CsvText(rows: seq<Row>) returns (text: string)
    requires rows != []
    ensures text == Join(CsvLines(rows), "\n")
  {
    var csvHeader := CsvRow(Keys(rows[0]));
    var csvLines := [csvHeader];
    var i := 0;
    while i < |rows|
      invariant 0 <= i <= |rows|
      invariant csvLines == [csvHeader] + RowLines(rows)[..i]
    {
      var line := CsvRowOf(rows[i]);
      PrefixSnoc(RowLines(rows), i);
      csvLines := csvLines + [line];
      i := i + 1;
    }
    CsvLinesAll(rows);
    text := Join(csvLines, "\n");
  }

  method CreateAndWriteHistoryLogFiles(fs: LogFs, absDir: string, history: seq<Category>, ext: LogExt,
                                       mkdirRecursive: bool) returns (r: Result<seq<string>, Thrown>)
    ensures r == HistoryLogFiles(fs, absDir, history, ext, mkdirRecursive)
  {
    var absLogFiles: seq<string> := [];
    if AnyRows(history) {
      var made := fs.mkdir(absDir, mkdirRecursive);
      if made.Some? {
        return Failure(made.value);
      }
      var i := 0;
      assert history[0..] == history;
      assert Prepend([], WriteLogs(fs, absDir, history, ext)) == WriteLogs(fs, absDir, history, ext) by {
        if WriteLogs(fs, absDir, history, ext).Success? {
          assert [] + WriteLogs(fs, absDir, history, ext).value == WriteLogs(fs, absDir, history, ext).value;
        }
      }
      while i < |history|
        invariant 0 <= i <= |history|
        invariant WriteLogs(fs, absDir, history, ext) == Prepend(absLogFiles, WriteLogs(fs, absDir, history[i..], ext))
      {
        var c := history[i];
        WriteLogsAt(fs, absDir, history, i, ext);
        if c.rows != [] {
          var absFilePath := LogFilePath(fs, absDir, c.name, ext);
          var content;
          if ext == JsonExt {
            content := fs.json(c.name, c.rows);
          } else {
            content := CsvText(c.rows);
          }
          var written := fs.writeFile(absFilePath, content);
          if written.Some? {
            return Failure(written.value);
          }
          PrependPrepend(absLogFiles, [absFilePath], WriteLogs(fs, absDir, history[i + 1..], ext));
          absLogFiles := absLogFiles + [absFilePath];
        }
        i := i + 1;
      }
      assert history[i..] == [];
      assert absLogFiles + [] == absLogFiles;
    }
    return Success(absLogFiles);
  }

  lemma PrependPrepend(a: seq<string>, b: seq<string>, r: Result<seq<string>, Thrown>)
    ensures Prepend(a, Prepend(b, r)) == Prepend(a + b, r)
  {
    if r.Success? {
      assert a + (b + r.value) == (a + b) + r.value;
    }
  }

  /** One step of the loop over the categories. */
  lemma WriteLogsAt(fs: LogFs, absDir: string, history: seq<Category>, i: nat, ext: LogExt)
    requires i < |history|
    ensures history[i].rows == [] ==> WriteLogs(fs, absDir, history[i..], ext) == WriteLogs(fs, absDir, history[i + 1..], ext)
    ensures history[i].rows != [] ==>
      var p := LogFilePath(fs, absDir, history[i].name, ext);
      var w := fs.writeFile(p, LogContent(fs, history[i], ext));
      WriteLogs(fs, absDir, history[i..], ext)
      == if w.Some? then Failure(w.value) else Prepend([p], WriteLogs(fs, absDir, history[i + 1..], ext))
  {
    assert history[i..][0] == history[i];
    assert history[i..][1..] == history[i + 1..];
  }

  /** How many categories hold a row. */
  function NonEmptyCount(history: seq<Category>): nat
    decreases |history|
  {
    if history == [] then 0
    else (if history[0].rows != [] then 1 else 0) + NonEmptyCount(history[1..])
  }

  predicate WritesSucceed(fs: LogFs, absDir: string, history: seq<Category>, ext: LogExt) {
    forall i :: 0 <= i < |history| && history[i].rows != [] ==>
      fs.writeFile(LogFilePath(fs, absDir, history[i].name, ext), LogContent(fs, history[i], ext)).None?
  }

  /** When no write throws, the result lists exactly the paths of the
      non-empty categories, one per category. */
  lemma {:induction false} WrittenPaths(fs: LogFs, absDir: string, history: seq<Category>, ext: LogExt)
    requires WritesSucceed(fs, absDir, history, ext)
    ensures WriteLogs(fs, absDir, history, ext).Success?
    ensures |WriteLogs(fs, absDir, history, ext).value| == NonEmptyCount(history)
    ensures forall p :: p in WriteLogs(fs, absDir, history, ext).value <==>
      exists i :: 0 <= i < |history| && history[i].rows != [] && p == LogFilePath(fs, absDir, history[i].name, ext)
    decreases |history|
  {
    if history != [] {
      var tail := history[1..];
      assert forall i :: 0 <= i < |tail| ==> tail[i] == history[i + 1];
      WrittenPaths(fs, absDir, tail, ext);
      var rest := WriteLogs(fs, absDir, tail, ext).value;
      forall p | p in WriteLogs(fs, absDir, history, ext).value
        ensures exists i :: 0 <= i < |history| && history[i].rows != [] && p == LogFilePath(fs, absDir, history[i].name, ext)
      {
        if p !in rest {
          assert history[0].rows != [] && p == LogFilePath(fs, absDir, history[0].name, ext);
        } else {
          var i :| 0 <= i < |tail| && tail[i].rows != [] && p == LogFilePath(fs, absDir, tail[i].name, ext);
          assert history[i + 1] == tail[i];
        }
      }
      forall p | exists i :: 0 <= i < |history| && history[i].rows != [] && p == LogFilePath(fs, absDir, history[i].name, ext)
        ensures p in WriteLogs(fs, absDir, history, ext).value
      {
        var i :| 0 <= i < |history| && history[i].rows != [] && p == LogFilePath(fs, absDir, history[i].name, ext);
        if i > 0 {
          assert tail[i - 1] == history[i];
        }
      }
    }
  }

  /** A write that throws makes the whole call throw. */
  lemma {:induction false} WriteFailureThrows(fs: LogFs, absDir: string, history: seq<Category>, ext: LogExt)
    requires !WritesSucceed(fs, absDir, history, ext)
    ensures WriteLogs(fs, absDir, history, ext).Failure?
    decreases |history|
  {
    var tail := history[1..];
    if history[0].rows == [] || fs.writeFile(LogFilePath(fs, absDir, history[0].name, ext), LogContent(fs, history[0], ext)).None? {
      assert !WritesSucceed(fs, absDir, tail, ext) by {
        var i :| 0 <= i < |history| && history[i].rows != []
          && fs.writeFile(LogFilePath(fs, absDir, history[i].name, ext), LogContent(fs, history[i], ext)).Some?;
        assert i > 0 && tail[i - 1] == history[i];
      }
      WriteFailureThrows(fs, absDir, tail, ext);
    }
  }

  /** With every category empty nothing is made and nothing is returned;
      otherwise the folder is made first and the files follow. */
  lemma HistoryLogFilesOutcome(fs: LogFs, absDir: string, history: seq<Category>, ext: LogExt, mkdirRecursive: bool)
    ensures NonEmptyCount(history) == 0 ==> HistoryLogFiles(fs, absDir, history, ext, mkdirRecursive) == Success([])
    ensures NonEmptyCount(history) > 0 && fs.mkdir(absDir, mkdirRecursive).Some? ==>
      HistoryLogFiles(fs, absDir, history, ext, mkdirRecursive) == Failure(fs.mkdir(absDir, mkdirRecursive).value)
    ensures NonEmptyCount(history) > 0 && fs.mkdir(absDir, mkdirRecursive).None? ==>
      HistoryLogFiles(fs, absDir, history, ext, mkdirRecursive) == WriteLogs(fs, absDir, history, ext)
  {
    NonEmptyCountAny(history);
  }

  lemma {:induction false} NonEmptyCountAny(history: seq<Category>)
    ensures NonEmptyCount(history) > 0 <==> AnyRows(history)
    decreases |history|
  {
    if history != [] {
      var tail := history[1..];
      NonEmptyCountAny(tail);
      if AnyRows(tail) {
        var i :| 0 <= i < |tail| && tail[i].rows != [];
        assert history[i + 1] == tail[i];
      }
      if AnyRows(history) && history[0].rows == [] {
        var i :| 0 <= i < |history| && history[i].rows != [];
        assert tail[i - 1] == history[i];
      }
    }
  }

  lemma {:induction false} NormSegsSnoc(acc: seq<string>, segs: seq<string>, s: string)
    requires IsSegment(s)
    requires forall i :: 0 <= i < |acc| ==> acc[i] != ".."
    ensures NormSegs(acc, segs + [s], false) == NormSegs(acc, segs, false) + [s]
    decreases |segs|
  {
    if segs == [] {
      assert [] + [s] == [s];
    } else {
      assert (segs + [s])[0] == segs[0];
      assert (segs + [s])[1..] == segs[1..] + [s];
      var x := segs[0];
      if x == "" || x == "." {
        NormSegsSnoc(acc, segs[1..], s);
      } else if x == ".." {
        if acc != [] && acc[|acc| - 1] != ".." {
          NormSegsSnoc(acc[..|acc| - 1], segs[1..], s);
        } else {
          NormSegsSnoc(acc, segs[1..], s);
        }
      } else {
        NormSegsSnoc(acc + [x], segs[1..], s);
      }
    }
  }

  /** The file of a category is `<name>.<ext>` directly inside the folder
      `absDir` resolves to. */
  lemma LogFileInFolder(fs: LogFs, absDir: string, name: string, ext: LogExt)
    requires '/' !in name
    ensures Resolve(fs.cwd, absDir, "./" + name + "." + ExtText(ext)).segs
      == Resolve(fs.cwd, absDir, ".").segs + [name + "." + ExtText(ext)]
  {
    var f := name + "." + ExtText(ext);
    assert '/' !in f by {
      assert forall i :: 0 <= i < |f| ==> f[i] != '/';
    }
    assert "./" + f == Join([".", f], "/");
    JoinSplit([".", f], '/');
    NoSepSplit(".", '/');
    assert !IsAbsolute("./" + f) && !IsAbsolute(".");
    var x := if IsAbsolute(absDir) then Split(absDir, '/') else fs.cwd.segs + Split(absDir, '/');
    assert "./" + name + "." + ExtText(ext) == "./" + f;
    assert x + [".", f] == (x + ["."]) + [f];
    assert |f| > 2;
    NormSegsSnoc([], x + ["."], f);
  }

  /** The CSV header reads back as the first row's keys. */
  lemma CsvHeaderKeys(rows: seq<Row>)
    requires rows != [] && rows[0] != []
    ensures ReadRow(CsvLines(rows)[0]) == seq(|rows[0]|, i requires 0 <= i < |rows[0]| => rows[0][i].0)
  {
    CsvRowRoundTrip(Keys(rows[0]));
  }
}
