/** `util/crypt.ts`: slugs, the eight-character hash prefix and random hex
    names. The digest and the random source are foreign and enter as values. */
module Crypt {
  import opened JsString
  import Fs

  /** `\p{Letter}` or `\p{Number}`, restricted to ASCII. */
  predicate IsLetterOrNumber(c: char) {
    ('a' <= c <= 'z') || ('A' <= c <= 'Z') || IsDigit(c)
  }

  predicate HasLetterOrNumber(s: string) {
    exists i :: 0 <= i < |s| && IsLetterOrNumber(s[i])
  }

  /** The shape of a slug body: letters, numbers and single dashes between them. */
  predicate SlugShaped(t: string) {
    (forall i :: 0 <= i < |t| ==> IsLetterOrNumber(t[i]) || t[i] == '-')
    && (forall i :: 0 <= i < |t| - 1 ==> t[i] == '-' ==> t[i + 1] != '-')
  }

  /** `replace(/[^\p{Letter}\p{Number}]+/gu, "-")`: each maximal run of other
      characters becomes one dash, written where the run ends. */
  function DashRuns(s: string): (r: string)
    ensures (r == []) == (s == [])
    ensures SlugShaped(r)
    ensures HasLetterOrNumber(r) <==> HasLetterOrNumber(s)
    decreases |s|
  {
    if s == [] then ""
    else
      var rest := DashRuns(s[1..]);
      if IsLetterOrNumber(s[0]) then
        assert forall i :: 0 <= i < |rest| ==> ([s[0]] + rest)[i + 1] == rest[i];
        assert IsLetterOrNumber(([s[0]] + rest)[0]);
        [s[0]] + rest
      else if |s| > 1 && !IsLetterOrNumber(s[1]) then
        assert forall i :: 1 <= i < |s| ==> s[1..][i - 1] == s[i];
        rest
      else
        assert forall i :: 1 <= i < |s| ==> s[1..][i - 1] == s[i];
        assert forall i :: 0 <= i < |rest| ==> ("-" + rest)[i + 1] == rest[i];
        "-" + rest
  }

  /** The number of leading dashes. */
  function LeadingDashes(s: string): (n: nat)
    ensures n <= |s| && (forall i :: 0 <= i < n ==> s[i] == '-') && (n < |s| ==> s[n] != '-')
    decreases |s|
  {
    if s != [] && s[0] == '-' then 1 + LeadingDashes(s[1..]) else 0
  }

  /** Where the trailing dashes start. */
  function TrailingDashesStart(s: string): (n: nat)
    ensures n <= |s| && (forall i :: n <= i < |s| ==> s[i] == '-') && (n > 0 ==> s[n - 1] != '-')
    decreases |s|
  {
    if s != [] && s[|s| - 1] == '-' then TrailingDashesStart(s[..|s| - 1]) else |s|
  }

  /** `replace(/^-+|-+$/g, "")`: leading and trailing dashes removed. */
  function TrimDashes(s: string): (r: string)
    ensures r == [] || (r[0] != '-' && r[|r| - 1] != '-')
  {
    var t := s[LeadingDashes(s)..];
    t[..TrailingDashesStart(t)]
  }

  /** The slug body before lower-casing keeps the shape and every letter or
      number of the dashed text. */
  lemma TrimDashesKeeps(d: string)
    requires SlugShaped(d)
    ensures SlugShaped(TrimDashes(d))
    ensures HasLetterOrNumber(TrimDashes(d)) <==> HasLetterOrNumber(d)
  {
    var a := LeadingDashes(d);
    var t := d[a..];
    var b := TrailingDashesStart(t);
    var m := TrimDashes(d);
    assert m == d[a..a + b];
    assert forall i :: 0 <= i < |m| ==> m[i] == d[a + i];
    if HasLetterOrNumber(d) {
      var k :| 0 <= k < |d| && IsLetterOrNumber(d[k]);
      assert t[k - a] == d[k];
      assert m[k - a] == d[k];
    }
  }

  /** ASCII lower-casing keeps dashes, letters and numbers where they are. */
  lemma LowerKeeps(m: string)
    requires SlugShaped(m)
    ensures SlugShaped(ToLower(m))
    ensures HasLetterOrNumber(ToLower(m)) <==> HasLetterOrNumber(m)
    ensures ToLower(m) == [] || ((ToLower(m)[0] == '-') == (m[0] == '-') && (ToLower(m)[|m| - 1] == '-') == (m[|m| - 1] == '-'))
  {
    var t := ToLower(m);
    assert forall i :: 0 <= i < |t| ==> (m[i] == '-' <==> t[i] == '-');
    assert forall i :: 0 <= i < |t| ==> (IsLetterOrNumber(m[i]) <==> IsLetterOrNumber(t[i]));
    if HasLetterOrNumber(m) {
      var k :| 0 <= k < |m| && IsLetterOrNumber(m[k]);
      assert IsLetterOrNumber(t[k]);
    }
  }

  /** The slug before its fallbacks: runs dashed, edges trimmed, lower-cased. */
  function SlugBody(s: string): string {
    ToLower(TrimDashes(DashRuns(s)))
  }

  /** `slugify(s, {def, winSafe})`. */
  function Slugify(s: string, def: string, winSafe: bool): string {
    var body := SlugBody(s);
    var base := if body != "" then body else if def != "" then def else "not-defined";
    if winSafe then Fs.WindowSafe(base, "") else base
  }

  /** The slug body has letters, numbers and single inner dashes only, never a
      dash at either end, and is empty exactly when `s` has no letter or number. */
  lemma SlugBodyShape(s: string)
    ensures var t := SlugBody(s);
      SlugShaped(t) && (t == [] || (t[0] != '-' && t[|t| - 1] != '-'))
      && (forall i :: 0 <= i < |t| ==> !('A' <= t[i] <= 'Z'))
      && (t == [] <==> !HasLetterOrNumber(s))
  {
    var d := DashRuns(s);
    TrimDashesKeeps(d);
    LowerKeeps(TrimDashes(d));
    var t := SlugBody(s);
    if t != [] {
      assert t[0] in t;
    }
  }

  /** An input with a letter or number slugs to its body whether or not the
      Windows-safe pass runs; any other input slugs to `def`, else `not-defined`. */
  lemma SlugifyFallback(s: string, def: string, winSafe: bool)
    ensures HasLetterOrNumber(s) ==> Slugify(s, def, winSafe) == SlugBody(s) != ""
    ensures !HasLetterOrNumber(s) && !winSafe ==>
      Slugify(s, def, winSafe) == if def != "" then def else "not-defined"
  {
    SlugBodyShape(s);
    if HasLetterOrNumber(s) && winSafe {
      var t := SlugBody(s);
      assert forall i :: 0 <= i < |t| ==> !Fs.IsWindowsUnsafe(t[i]);
      Fs.NoUnsafeFixed(t);
    }
  }

  /** With `winSafe` the slug never holds a character Windows refuses. */
  lemma SlugifyWindowsSafe(s: string, def: string)
    ensures var r := Slugify(s, def, true);
      forall i :: 0 <= i < |r| ==> !Fs.IsWindowsUnsafe(r[i])
  {
  }

  /** `hash8(hex)`: the first eight characters, or all of a shorter string. */
  function Hash8(hex: string): (r: string)
    ensures |r| == if |hex| < 8 then |hex| else 8
    ensures r <= hex
  {
    if |hex| < 8 then hex else hex[..8]
  }

  /** `sha256(buf)` as a function of the buffer: the digest is a parameter. */
  function Sha256(digest: seq<bv8> -> string, buf: seq<bv8>): string {
    digest(buf)
  }

  /** `randomHash(n)`: the hex of `n` random bytes, supplied by the caller. */
  function RandomHash(randomBytes: seq<bv8>): (r: string)
    ensures |r| == 2 * |randomBytes|
    ensures forall i :: 0 <= i < |r| ==> IsHexDigit(r[i])
  {
    Hex(randomBytes)
  }
}
