/** `util/fs.ts`: URL absolutizing, origin comparison, the MIME to extension
    table, Windows-unsafe character removal, the strict sub-path test and
    output-directory resolution. The WHATWG URL parser and `realpath` are
    foreign and enter as parameters. */
module Fs {
  import opened Wrappers
  import opened JsString
  import opened Paths

  /** What the model keeps of a parsed `URL`. */
  datatype Url = Url(protocol: string, hostname: string, origin: string)

  /** `parse(s)` stands for `new URL(s)` and `resolve(rel, base)` for
      `new URL(rel, base).toString()`; `None` means the constructor threw. */
  datatype UrlLib = UrlLib(parse: string -> Option<Url>, resolve: (string, string) -> Option<string>)

  /** `absolutizeUrl`: a protocol-relative reference (`//host/...`) takes the
      base's protocol; anything else is resolved against the base; a parse
      failure gives `undefined`. */
  function AbsolutizeUrl(lib: UrlLib, mayBeRel: string, base: string): (r: Option<string>)
    ensures StartsWith(mayBeRel, "//") ==>
      (lib.parse(base).None? ==> r.None?) &&
      (lib.parse(base).Some? ==> r == Some(lib.parse(base).value.protocol + mayBeRel))
    ensures !StartsWith(mayBeRel, "//") ==> r == lib.resolve(mayBeRel, base)
  {
    if StartsWith(mayBeRel, "//") then
      match lib.parse(base)
      case None => None
      case Some(b) => Some(b.protocol + mayBeRel)
    else lib.resolve(mayBeRel, base)
  }

  /** `sameOrigin`: false when either URL fails to parse. */
  function SameOrigin(lib: UrlLib, x: string, y: string): (r: bool)
    ensures r <==> lib.parse(x).Some? && lib.parse(y).Some?
                   && lib.parse(x).value.origin == lib.parse(y).value.origin
  {
    match (lib.parse(x), lib.parse(y))
    case (Some(a), Some(b)) => a.origin == b.origin
    case _ => false
  }

  lemma SameOriginSymmetric(lib: UrlLib, x: string, y: string)
    ensures SameOrigin(lib, x, y) == SameOrigin(lib, y, x)
  {
  }

  /** A URL that parses has its own origin; one that does not has none. */
  lemma SameOriginReflexive(lib: UrlLib, x: string)
    ensures SameOrigin(lib, x, x) <==> lib.parse(x).Some?
  {
  }

  /** The fixed MIME essence to extension table. */
  function MimeTable(m: string): Option<string> {
    if m == "image/jpeg" || m == "image/jpg" then Some("jpg")
    else if m == "image/png" then Some("png")
    else if m == "image/webp" then Some("webp")
    else if m == "image/gif" then Some("gif")
    else if m == "image/svg+xml" then Some("svg")
    else if m == "image/avif" then Some("avif")
    else None
  }

  /** `fallback || x` for an optional string. */
  function OrElse(fallback: Option<string>, x: string): string {
    if fallback.Some? && fallback.value != "" then fallback.value else x
  }

  /** The media type without parameters, trimmed and lower-cased. */
  function MimeEssence(mime: string): string {
    ToLower(Trim(BeforeFirst(mime, ';')))
  }

  /** `extFromMime` (identical in both copies of the source). */
  function ExtFromMime(mime: Option<string>, fallback: Option<string>): string {
    if mime.None? || mime.value == "" then OrElse(fallback, "bin")
    else
      var m := MimeEssence(mime.value);
      match MimeTable(m)
      case Some(ext) => ext
      case None =>
        var parts := Split(m, '/');
        OrElse(fallback, if |parts| >= 2 then parts[1] else "bin")
  }

  /** With no MIME the fallback decides, and `bin` stands in for a missing one. */
  lemma ExtFromMimeNoMime(mime: Option<string>, fallback: Option<string>)
    requires mime.None? || mime.value == ""
    ensures fallback.Some? && fallback.value != "" ==> ExtFromMime(mime, fallback) == fallback.value
    ensures fallback.None? || fallback.value == "" ==> ExtFromMime(mime, fallback) == "bin"
  {
  }

  /** A known image type maps through the table whatever the fallback. */
  lemma ExtFromMimeKnown(mime: string, fallback1: Option<string>, fallback2: Option<string>)
    requires mime != "" && MimeTable(MimeEssence(mime)).Some?
    ensures ExtFromMime(Some(mime), fallback1) == ExtFromMime(Some(mime), fallback2)
               == MimeTable(MimeEssence(mime)).value
  {
  }

  /** Any other type gives the fallback when there is one, else `bin` when
      the type has no `/`. */
  lemma ExtFromMimeOther(mime: string, fallback: Option<string>)
    requires mime != "" && MimeTable(MimeEssence(mime)).None?
    ensures fallback.Some? && fallback.value != "" ==> ExtFromMime(Some(mime), fallback) == fallback.value
    ensures (fallback.None? || fallback.value == "") && '/' !in MimeEssence(mime) ==>
      ExtFromMime(Some(mime), fallback) == "bin"
  {
    if '/' !in MimeEssence(mime) {
      NoSepSplit(MimeEssence(mime), '/');
    }
  }

  /** With no fallback, a type `a/b` of another kind gives its subtype `b`. */
  lemma ExtFromMimeSubtype(mime: string, fallback: Option<string>, a: string, b: string)
    requires mime != "" && MimeTable(MimeEssence(mime)).None?
    requires fallback.None? || fallback.value == ""
    requires MimeEssence(mime) == a + "/" + b && '/' !in a && '/' !in b
    ensures ExtFromMime(Some(mime), fallback) == b
  {
    assert forall i :: 0 <= i < |[a, b]| ==> '/' !in [a, b][i];
    JoinSplit([a, b], '/');
    assert Join([a, b], "/") == a + "/" + b;
  }

  /** Parameters after `;` never change the extension. */
  lemma {:induction false} ExtFromMimeIgnoresParameters(mime: string, params: string, fallback: Option<string>)
    requires mime != "" && ';' !in mime
    ensures ExtFromMime(Some(mime + ";" + params), fallback) == ExtFromMime(Some(mime), fallback)
  {
    SplitJoin(params, ';');
    var ps := Split(params, ';');
    assert forall i :: 0 <= i < |[mime] + ps| ==> ';' !in ([mime] + ps)[i];
    JoinSplit([mime] + ps, ';');
    assert Join([mime] + ps, ";") == mime + ";" + Join(ps, ";");
    NoSepSplit(mime, ';');
  }

  predicate IsWindowsUnsafe(c: char) {
    c in "<>:\"/\\|?*"
  }

  /** `windowSafe(s, replaceValue)`: every unsafe character replaced. */
  function WindowSafe(s: string, replaceValue: string): (r: string)
    ensures (forall i :: 0 <= i < |replaceValue| ==> !IsWindowsUnsafe(replaceValue[i]))
            ==> forall i :: 0 <= i < |r| ==> !IsWindowsUnsafe(r[i])
    decreases |s|
  {
    if s == [] then ""
    else (if IsWindowsUnsafe(s[0]) then replaceValue else [s[0]]) + WindowSafe(s[1..], replaceValue)
  }

  /** With the default empty replacement the unsafe characters are dropped and
      every other character is kept, in order. */
  lemma {:induction false} WindowSafeKeepsOthers(s: string)
    ensures WindowSafe(s, "") == Filtered(s)
    decreases |s|
  {
    if s != [] { WindowSafeKeepsOthers(s[1..]); }
  }

  /** The safe characters of `s`, in order. */
  function Filtered(s: string): (r: string)
    ensures forall i :: 0 <= i < |r| ==> !IsWindowsUnsafe(r[i])
    ensures forall i :: 0 <= i < |s| && !IsWindowsUnsafe(s[i]) ==> s[i] in r
    ensures |r| <= |s|
    decreases |s|
  {
    if s == [] then ""
    else if IsWindowsUnsafe(s[0]) then Filtered(s[1..])
    else [s[0]] + Filtered(s[1..])
  }

  lemma {:induction false} WindowSafeIdempotent(s: string)
    ensures WindowSafe(WindowSafe(s, ""), "") == WindowSafe(s, "")
    decreases |s|
  {
    WindowSafeKeepsOthers(s);
    NoUnsafeFixed(Filtered(s));
  }

  lemma {:induction false} NoUnsafeFixed(s: string)
    requires forall i :: 0 <= i < |s| ==> !IsWindowsUnsafe(s[i])
    ensures WindowSafe(s, "") == s
    decreases |s|
  {
    if s != [] {
      assert forall i :: 0 <= i < |s[1..]| ==> s[1..][i] == s[i + 1];
      NoUnsafeFixed(s[1..]);
    }
  }

  /** `isSubPath` of `util/fs.ts`: the relative path must be non-empty, so a
      directory is not a sub-path of itself. */
  function IsSubPathStrict(absParent: AbsPath, absChild: AbsPath): bool {
    var rel := Relative(absParent, absChild);
    rel != "" && !StartsWith(rel, "..") && !IsAbsolute(rel)
  }

  /** The relative path to a strict descendant starts with its first extra
      segment; it climbs exactly when that segment itself starts with `..`. */
  lemma JoinedSegmentsHead(parts: seq<string>)
    requires parts != [] && IsSegment(parts[0])
    ensures Join(parts, "/") != "" && !IsAbsolute(Join(parts, "/"))
    ensures StartsWith(Join(parts, "/"), "..") <==> StartsWith(parts[0], "..")
  {
    var j := Join(parts, "/");
    JoinHead(parts, "/");
    assert j[0] == parts[0][0];
    if |parts[0]| >= 2 {
      assert j[..2] == parts[0][..2];
    } else {
      assert parts[0] == [parts[0][0]];
    }
  }

  /** As written: `child` is a strict sub-path of `parent` iff it extends it by
      at least one segment and the first extra segment does not start with `..`. */
  lemma IsSubPathStrictIff(parent: AbsPath, child: AbsPath)
    requires parent.Valid() && child.Valid()
    ensures IsSubPathStrict(parent, child) <==>
      parent.segs <= child.segs && |parent.segs| < |child.segs|
      && !StartsWith(child.segs[|parent.segs|], "..")
  {
    RelativeClimbs(parent, child);
    if parent.segs <= child.segs && |parent.segs| < |child.segs| {
      JoinedSegmentsHead(child.segs[|parent.segs|..]);
    } else if parent.segs <= child.segs {
      assert child.segs[|parent.segs|..] == [];
    }
  }

  /** A directory is never a strict sub-path of itself. */
  lemma IsSubPathStrictIrreflexive(p: AbsPath)
    requires p.Valid()
    ensures !IsSubPathStrict(p, p)
  {
    IsSubPathStrictIff(p, p);
  }

  /** A directory whose name merely starts with two dots, such as `/out/..cache`
      under `/out`, is rejected although it lies inside. */
  lemma IsSubPathRejectsDotDotName()
    ensures AbsPath(["out"]).Valid() && AbsPath(["out", "..cache"]).Valid()
    ensures !IsSubPathStrict(AbsPath(["out"]), AbsPath(["out", "..cache"]))
  {
    IsSubPathStrictIff(AbsPath(["out"]), AbsPath(["out", "..cache"]));
    assert StartsWith("..cache", "..");
  }

  /** Whether a relative path climbs: it is `..` or starts with `../`. */
  predicate Climbs(rel: string) {
    rel == ".." || StartsWith(rel, "../")
  }

  /** The strict test with the climb check made segment-wise. */
  function IsSubPathStrictBySegment(absParent: AbsPath, absChild: AbsPath): bool {
    var rel := Relative(absParent, absChild);
    rel != "" && !Climbs(rel) && !IsAbsolute(rel)
  }

  /** The segment-wise test holds exactly for strict descendants. */
  lemma IsSubPathStrictBySegmentIff(parent: AbsPath, child: AbsPath)
    requires parent.Valid() && child.Valid()
    ensures IsSubPathStrictBySegment(parent, child) <==>
      parent.segs <= child.segs && |parent.segs| < |child.segs|
  {
    var c := CommonPrefixLength(parent.segs, child.segs);
    var parts := Ups(|parent.segs| - c) + child.segs[c..];
    var rel := Relative(parent, child);
    assert rel == Join(parts, "/");
    if parent.segs <= child.segs {
      assert c == |parent.segs|;
      assert parts == child.segs[c..];
      if |parent.segs| < |child.segs| {
        JoinedSegmentsHead(parts);
        NotClimbing(parts);
      }
    } else {
      assert c < |parent.segs|;
      assert parts[0] == "..";
      ClimbingJoin(parts);
    }
  }

  lemma NotClimbing(parts: seq<string>)
    requires parts != [] && IsSegment(parts[0])
    ensures !Climbs(Join(parts, "/"))
  {
    var j := Join(parts, "/");
    var h := parts[0];
    JoinHead(parts, "/");
    if |parts| > 1 {
      assert j == h + "/" + Join(parts[1..], "/");
    }
    if |h| >= 3 {
      assert h[2] in h;
      assert j[..3] == h[..3] && h[..3][2] != '/';
    } else if |h| == 2 {
      assert j[..2] == h && h != "..";
    } else {
      assert h[0] != '.' || h == ".";
      assert j[0] == h[0];
    }
  }

  lemma ClimbingJoin(parts: seq<string>)
    requires parts != [] && parts[0] == ".."
    ensures Climbs(Join(parts, "/"))
  {
    if |parts| > 1 {
      assert Join(parts, "/") == ".." + "/" + Join(parts[1..], "/");
    }
  }

  /** `safeResolveOutDir`: an absolute input is normalized, a relative one is
      resolved against `cwd`; `realpath` replaces it when the path exists. */
  function SafeResolveOutDir(outRaw: string, cwd: AbsPath, realpath: string -> Option<string>): (r: string)
    requires cwd.Valid()
    ensures realpath(if IsAbsolute(outRaw) then Normalize(outRaw) else ToString(Resolve(cwd, ToString(cwd), outRaw))).None? ==>
      r == (if IsAbsolute(outRaw) then Normalize(outRaw) else ToString(Resolve(cwd, ToString(cwd), outRaw)))
  {
    var abs := if IsAbsolute(outRaw) then Normalize(outRaw) else ToString(Resolve(cwd, ToString(cwd), outRaw));
    realpath(abs).GetOr(abs)
  }
}
