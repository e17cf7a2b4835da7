/** A model of the POSIX half of Node's `node:path`: `resolve`, `normalize`,
    `join`, `relative` and `isAbsolute`, over path segments. */
module Paths {
  import opened JsString

  /** A segment of a resolved absolute path. */
  predicate IsSegment(s: string) {
    s != "" && s != "." && s != ".." && '/' !in s
  }

  /** A resolved absolute path: `/` followed by its segments. */
  datatype AbsPath = AbsPath(segs: seq<string>) {
    ghost predicate Valid() {
      forall i :: 0 <= i < |segs| ==> IsSegment(segs[i])
    }
  }

  function ToString(p: AbsPath): string {
    "/" + Join(p.segs, "/")
  }

  predicate IsAbsolute(s: string) {
    s != [] && s[0] == '/'
  }

  /** Node's `normalizeString`: empty and `.` segments vanish, `..` removes the
      segment before it; above the root it is kept only for relative paths. */
  function NormSegs(acc: seq<string>, segs: seq<string>, allowAboveRoot: bool): (r: seq<string>)
    requires !allowAboveRoot ==> forall i :: 0 <= i < |acc| ==> acc[i] != ".."
    ensures !allowAboveRoot ==> forall i :: 0 <= i < |r| ==> r[i] != ".."
    ensures (forall i :: 0 <= i < |acc| ==> acc[i] != "" && acc[i] != "." && '/' !in acc[i])
        && (forall i :: 0 <= i < |segs| ==> '/' !in segs[i])
        ==> forall i :: 0 <= i < |r| ==> r[i] != "" && r[i] != "." && '/' !in r[i]
    decreases |segs|
  {
    if segs == [] then acc
    else
      var s := segs[0];
      if s == "" || s == "." then NormSegs(acc, segs[1..], allowAboveRoot)
      else if s == ".." then
        if acc != [] && acc[|acc| - 1] != ".." then NormSegs(acc[..|acc| - 1], segs[1..], allowAboveRoot)
        else if allowAboveRoot then NormSegs(acc + [".."], segs[1..], allowAboveRoot)
        else NormSegs(acc, segs[1..], allowAboveRoot)
      else NormSegs(acc + [s], segs[1..], allowAboveRoot)
  }

  /** `path.resolve(base, p)` with the process's working directory `cwd`. */
  function Resolve(cwd: AbsPath, base: string, p: string): (r: AbsPath)
    requires cwd.Valid()
    ensures r.Valid()
  {
    var joined :=
      if IsAbsolute(p) then Split(p, '/')
      else if IsAbsolute(base) then Split(base, '/') + Split(p, '/')
      else cwd.segs + Split(base, '/') + Split(p, '/');
    SplitJoin(p, '/');
    SplitJoin(base, '/');
    AbsPath(NormSegs([], joined, false))
  }

  /** `path.normalize(s)`; a trailing separator survives. */
  function Normalize(s: string): string {
    if s == "" then "."
    else
      var isAbs := IsAbsolute(s);
      var trailing := s[|s| - 1] == '/';
      var body := Join(NormSegs([], Split(s, '/'), !isAbs), "/");
      if body == "" then (if isAbs then "/" else if trailing then "./" else ".")
      else
        var withSlash := if trailing then body + "/" else body;
        if isAbs then "/" + withSlash else withSlash
  }

  /** `path.join(a, b)`: empty arguments are dropped, the rest normalized. */
  function PathJoin(a: string, b: string): string {
    var joined := if a == "" then b else if b == "" then a else a + "/" + b;
    if joined == "" then "." else Normalize(joined)
  }

  function CommonPrefixLength(a: seq<string>, b: seq<string>): (n: nat)
    ensures n <= |a| && n <= |b| && a[..n] == b[..n]
    ensures n < |a| && n < |b| ==> a[n] != b[n]
  {
    if a == [] || b == [] || a[0] != b[0] then 0
    else
      var k := CommonPrefixLength(a[1..], b[1..]);
      assert a[..k + 1] == [a[0]] + a[1..][..k];
      assert b[..k + 1] == [b[0]] + b[1..][..k];
      1 + k
  }

  function Ups(n: nat): (r: seq<string>)
    ensures |r| == n && forall i :: 0 <= i < n ==> r[i] == ".."
  {
    if n == 0 then [] else [".."] + Ups(n - 1)
  }

  /** `path.relative(from, to)` on resolved paths: one `..` per segment of
      `from` past the common prefix, then the rest of `to`. */
  function Relative(from: AbsPath, to: AbsPath): string {
    var c := CommonPrefixLength(from.segs, to.segs);
    Join(Ups(|from.segs| - c) + to.segs[c..], "/")
  }

  lemma {:induction false} JoinHead(parts: seq<string>, sep: string)
    requires parts != []
    ensures parts[0] <= Join(parts, sep)
  {
  }

  /** `parent` is a prefix of `child` exactly when the relative path climbs no level. */
  lemma {:induction false} RelativeClimbs(from: AbsPath, to: AbsPath)
    requires from.Valid() && to.Valid()
    ensures var rel := Relative(from, to);
      (from.segs <= to.segs ==> rel == Join(to.segs[|from.segs|..], "/"))
      && (!(from.segs <= to.segs) ==> StartsWith(rel, ".."))
  {
    var c := CommonPrefixLength(from.segs, to.segs);
    if from.segs <= to.segs {
      assert c == |from.segs|;
      assert Ups(0) + to.segs[c..] == to.segs[c..];
    } else {
      assert c < |from.segs|;
      var parts := Ups(|from.segs| - c) + to.segs[c..];
      JoinHead(parts, "/");
      assert parts[0] == "..";
    }
  }
}
