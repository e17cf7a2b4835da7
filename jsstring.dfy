/** The JavaScript string primitives the source relies on, written out on
    `seq<char>`: trimming, splitting, joining, first-occurrence replacement
    and the digit/hex conversions. Case mapping covers ASCII only. */
module JsString {
  import opened Wrappers

  /** The characters `String.prototype.trim` and `\s` treat as white space. */
  predicate IsSpace(c: char) {
    c == ' ' || c == '\t' || c == '\n' || c == '\r' || c == '\U{000B}' || c == '\U{000C}'
    || c == '\U{00A0}' || c == '\U{1680}' || ('\U{2000}' <= c <= '\U{200A}')
    || c == '\U{2028}' || c == '\U{2029}' || c == '\U{202F}' || c == '\U{205F}'
    || c == '\U{3000}' || c == '\U{FEFF}'
  }

  predicate IsDigit(c: char) { '0' <= c <= '9' }

  /** `\w` of a non-Unicode regular expression. */
  predicate IsWordChar(c: char) {
    ('a' <= c <= 'z') || ('A' <= c <= 'Z') || IsDigit(c) || c == '_'
  }

  function TrimStart(s: string): (r: string)
    ensures r == [] || !IsSpace(r[0])
    decreases |s|
  {
    if s != [] && IsSpace(s[0]) then TrimStart(s[1..]) else s
  }

  function TrimEnd(s: string): (r: string)
    ensures r == [] || !IsSpace(r[|r| - 1])
    decreases |s|
  {
    if s != [] && IsSpace(s[|s| - 1]) then TrimEnd(s[..|s| - 1]) else s
  }

  /** What `TrimStart` keeps is a suffix of its input. */
  lemma {:induction false} TrimStartSuffix(s: string)
    ensures |TrimStart(s)| <= |s| && TrimStart(s) == s[|s| - |TrimStart(s)|..]
    decreases |s|
  {
    if s != [] && IsSpace(s[0]) {
      TrimStartSuffix(s[1..]);
    }
  }

  lemma TrimStartNoSpace(s: string)
    requires s != [] && !IsSpace(s[0])
    ensures TrimStart(s) == s
  {
  }

  /** What `TrimEnd` keeps is a prefix of its input. */
  lemma {:induction false} TrimEndPrefix(s: string)
    ensures |TrimEnd(s)| <= |s| && TrimEnd(s) == s[..|TrimEnd(s)|]
    decreases |s|
  {
    if s != [] && IsSpace(s[|s| - 1]) {
      TrimEndPrefix(s[..|s| - 1]);
    }
  }

  function Trim(s: string): (r: string)
    ensures r == [] || (!IsSpace(r[0]) && !IsSpace(r[|r| - 1]))
  {
    TrimEndPrefix(TrimStart(s));
    TrimEnd(TrimStart(s))
  }

  /** `a || b` on strings: the empty string is falsy. */
  function Or(a: string, b: string): string {
    if a != "" then a else b
  }

  predicate StartsWith(s: string, prefix: string) {
    prefix <= s
  }

  function ToLowerChar(c: char): char {
    if 'A' <= c <= 'Z' then (c as int + 32) as char else c
  }

  function ToLower(s: string): (r: string)
    ensures |r| == |s|
    ensures forall i :: 0 <= i < |s| ==> r[i] == ToLowerChar(s[i])
  {
    seq(|s|, i requires 0 <= i < |s| => ToLowerChar(s[i]))
  }

  /** Each character on its own: `s.split("")`. */
  function Chars(s: string): (r: seq<string>)
    ensures |r| == |s|
    ensures forall i :: 0 <= i < |s| ==> r[i] == [s[i]]
  {
    seq(|s|, i requires 0 <= i < |s| => [s[i]])
  }

  /** `s.split(sep)` for a string separator. */
  function SplitBy(s: string, sep: string): (r: seq<string>)
    ensures sep != [] ==> |r| >= 1
    decreases |s|
  {
    if sep == [] then Chars(s)
    else if s == [] then [""]
    else if sep <= s then [""] + SplitBy(s[|sep|..], sep)
    else
      var rest := SplitBy(s[1..], sep);
      [[s[0]] + rest[0]] + rest[1..]
  }

  /** `s.split(c)` for a one-character separator. */
  function Split(s: string, c: char): (r: seq<string>)
    ensures |r| >= 1
  {
    SplitBy(s, [c])
  }

  function Join(parts: seq<string>, sep: string): string
    decreases |parts|
  {
    if parts == [] then ""
    else if |parts| == 1 then parts[0]
    else parts[0] + sep + Join(parts[1..], sep)
  }

  /** Splitting on a character and joining back with it gives the string back,
      and no piece contains the separator. */
  lemma {:induction false} SplitJoin(s: string, c: char)
    ensures Join(Split(s, c), [c]) == s
    ensures forall i :: 0 <= i < |Split(s, c)| ==> c !in Split(s, c)[i]
    decreases |s|
  {
    if s != [] {
      SplitJoin(s[1..], c);
      var rest := Split(s[1..], c);
      if s[0] == c {
        assert [c] <= s;
        assert Split(s, c) == [""] + rest;
      } else {
        assert !([c] <= s);
        assert Split(s, c) == [[s[0]] + rest[0]] + rest[1..];
        if |rest| > 1 {
          assert Join(rest, [c]) == rest[0] + [c] + Join(rest[1..], [c]);
        }
      }
    }
  }

  /** Joining pieces free of the separator and splitting again gives the pieces back. */
  lemma {:induction false} JoinSplit(parts: seq<string>, c: char)
    requires |parts| >= 1
    requires forall i :: 0 <= i < |parts| ==> c !in parts[i]
    ensures Split(Join(parts, [c]), c) == parts
    decreases |parts|, |parts[0]|
  {
    if |parts| == 1 {
      NoSepSplit(parts[0], c);
    } else if parts[0] == [] {
      var tail := Join(parts[1..], [c]);
      assert Join(parts, [c]) == [c] + tail;
      JoinSplit(parts[1..], c);
      assert [c] <= [c] + tail;
      assert ([c] + tail)[1..] == tail;
    } else {
      var s := Join(parts, [c]);
      var shorter := [parts[0][1..]] + parts[1..];
      assert s == [parts[0][0]] + Join(shorter, [c]);
      assert forall i :: 0 <= i < |shorter| ==> c !in shorter[i] by {
        assert forall k :: 0 <= k < |parts[0][1..]| ==> parts[0][1..][k] == parts[0][k + 1];
      }
      JoinSplit(shorter, c);
      assert s[0] == parts[0][0] && s[0] != c;
      assert s[..1] == [s[0]];
      assert !([c] <= s);
      assert s[1..] == Join(shorter, [c]);
      assert [parts[0][0]] + parts[0][1..] == parts[0];
    }
  }

  lemma {:induction false} NoSepSplit(s: string, c: char)
    requires c !in s
    ensures Split(s, c) == [s]
    decreases |s|
  {
    if s != [] {
      assert c !in s[1..] by { assert forall k :: 0 <= k < |s[1..]| ==> s[1..][k] == s[k + 1]; }
      NoSepSplit(s[1..], c);
      assert s[0] in s;
      assert s[..1] == [s[0]];
      assert !([c] <= s);
      assert [s[0]] + s[1..] == s;
    }
  }

  /** The text before the first `c` (`s.split(c)[0]`). */
  function BeforeFirst(s: string, c: char): string {
    Split(s, c)[0]
  }

  /** The text after the last `c` (`s.split(c).pop()`). */
  function AfterLast(s: string, c: char): string {
    var parts := Split(s, c);
    parts[|parts| - 1]
  }

  /** `s.indexOf(pat)`: the first position at which `pat` occurs. */
  function IndexOf(s: string, pat: string): (r: Option<nat>)
    ensures r.Some? ==> r.value + |pat| <= |s| && s[r.value..r.value + |pat|] == pat
    ensures r.Some? ==> forall p :: 0 <= p < r.value ==> !(pat <= s[p..])
    ensures r.None? ==> forall p :: 0 <= p <= |s| ==> !(pat <= s[p..])
    decreases |s|
  {
    if pat <= s then Some(0)
    else if s == [] then None
    else
      match IndexOf(s[1..], pat)
      case None =>
        assert forall p :: 1 <= p <= |s| ==> s[p..] == s[1..][p - 1..];
        None
      case Some(k) =>
        assert forall p :: 1 <= p <= k ==> s[p..] == s[1..][p - 1..];
        assert s[k + 1..k + 1 + |pat|] == s[1..][k..k + |pat|];
        Some(k + 1)
  }

  /** The names `key in {}` is already true for: the properties every object
      inherits from `Object.prototype`. */
  const ObjectPrototypeKeys: set<string> := {
    "constructor", "__proto__", "hasOwnProperty", "isPrototypeOf",
    "propertyIsEnumerable", "toLocaleString", "toString", "valueOf",
    "__defineGetter__", "__defineSetter__", "__lookupGetter__", "__lookupSetter__"
  }

  /** `String(o[w])` for an object `o` without an own property `w` in
      `Object.prototype`: `__proto__` is the prototype itself, `constructor`
      is `Object`, and every other name is a built-in method of that name. */
  function InheritedText(w: string): string
    requires w in ObjectPrototypeKeys
  {
    if w == "__proto__" then "[object Object]"
    else if w == "constructor" then "function Object() { [native code] }"
    else "function " + w + "() { [native code] }"
  }

  /** The replacement patterns of `String.prototype.replace` with a string
      pattern (there are no capture groups): `$$`, `$&`, `` $` `` and `$'`;
      every other `$` is literal. */
  function Substitute(repl: string, matched: string, before: string, after: string): string
    decreases |repl|
  {
    if repl == [] then ""
    else if repl[0] == '$' && |repl| >= 2 && repl[1] in {'$', '&', '`', '\''} then
      (match repl[1]
       case '$' => "$"
       case '&' => matched
       case '`' => before
       case _ => after)
      + Substitute(repl[2..], matched, before, after)
    else [repl[0]] + Substitute(repl[1..], matched, before, after)
  }

  /** `s.replace(pat, repl)` with a string pattern: only the first occurrence. */
  function ReplaceFirst(s: string, pat: string, repl: string): string {
    match IndexOf(s, pat)
    case None => s
    case Some(p) => s[..p] + Substitute(repl, pat, s[..p], s[p + |pat|..]) + s[p + |pat|..]
  }

  /** With no `$` in the replacement, the first occurrence is replaced by it verbatim
      and everything else is kept. */
  lemma {:induction false} ReplaceFirstPlain(s: string, pat: string, repl: string)
    requires '$' !in repl
    ensures IndexOf(s, pat).None? ==> ReplaceFirst(s, pat, repl) == s
    ensures IndexOf(s, pat).Some? ==>
      var p := IndexOf(s, pat).value;
      ReplaceFirst(s, pat, repl) == s[..p] + repl + s[p + |pat|..]
  {
    if IndexOf(s, pat).Some? {
      var p := IndexOf(s, pat).value;
      SubstitutePlain(repl, pat, s[..p], s[p + |pat|..]);
    }
  }

  /** Replacing a whole string by a `$`-free text gives that text. */
  lemma ReplaceWhole(pat: string, repl: string)
    requires '$' !in repl
    ensures ReplaceFirst(pat, pat, repl) == repl
  {
    assert pat <= pat;
    ReplaceFirstPlain(pat, pat, repl);
    assert pat[..0] == [] && pat[|pat|..] == [];
  }

  lemma {:induction false} SubstitutePlain(repl: string, matched: string, before: string, after: string)
    requires '$' !in repl
    ensures Substitute(repl, matched, before, after) == repl
    decreases |repl|
  {
    if repl != [] {
      assert repl[0] != '$';
      assert '$' !in repl[1..] by { assert forall i :: 0 <= i < |repl[1..]| ==> repl[1..][i] == repl[i + 1]; }
      SubstitutePlain(repl[1..], matched, before, after);
    }
  }

  /** Where the run of `\w` characters starting at `i` ends. */
  function WordRunEnd(s: string, i: nat): (e: nat)
    requires i <= |s|
    ensures i <= e <= |s|
    ensures forall k :: i <= k < e ==> IsWordChar(s[k])
    ensures e < |s| ==> !IsWordChar(s[e])
    decreases |s| - i
  {
    if i < |s| && IsWordChar(s[i]) then WordRunEnd(s, i + 1) else i
  }

  /** A non-empty run of word characters. */
  predicate IsWord(w: string) {
    w != [] && forall i :: 0 <= i < |w| ==> IsWordChar(w[i])
  }

  /** Where a `{word}` token at the start of `s` ends: `\{(\w+)\}` matches
      there exactly when `{` is followed by a non-empty run of word
      characters and then `}` (backtracking cannot help, as a shorter run
      is followed by a word character). */
  function TokenEnd(s: string): (r: Option<nat>)
    ensures r.Some? ==> 3 <= r.value <= |s| && s[0] == '{' && s[r.value - 1] == '}'
    ensures r.Some? ==> IsWord(s[1..r.value - 1])
  {
    if s != [] && s[0] == '{' then
      var e := WordRunEnd(s, 1);
      if e > 1 && e < |s| && s[e] == '}' then Some(e + 1) else None
    else None
  }

  /** `s.replace(/\{(\w+)\}/g, callback)`: scanning left to right, each
      token is replaced by `sub(word, k)`, `k` counting the tokens before it,
      and the scan resumes after the token; everything else is kept. */
  function ReplaceTokens(s: string, sub: (string, nat) -> string, k: nat): string
    decreases |s|
  {
    if s == [] then ""
    else
      match TokenEnd(s)
      case Some(e) => sub(s[1..e - 1], k) + ReplaceTokens(s[e..], sub, k + 1)
      case None => [s[0]] + ReplaceTokens(s[1..], sub, k)
  }

  /** Text without `{` passes through unchanged, whatever follows it. */
  lemma {:induction false} ReplaceTokensPlain(a: string, b: string, sub: (string, nat) -> string, k: nat)
    requires '{' !in a
    ensures ReplaceTokens(a + b, sub, k) == a + ReplaceTokens(b, sub, k)
    decreases |a|
  {
    if a != [] {
      var s := a + b;
      assert s[0] == a[0] && a[0] in a;
      assert TokenEnd(s).None?;
      assert s[1..] == a[1..] + b;
      assert '{' !in a[1..] by { assert forall i :: 0 <= i < |a[1..]| ==> a[1..][i] == a[i + 1]; }
      ReplaceTokensPlain(a[1..], b, sub, k);
    } else {
      assert a + b == b;
    }
  }

  /** A token `{w}` is replaced by `sub(w, k)` and the scan goes on after it. */
  lemma ReplaceTokensToken(w: string, rest: string, sub: (string, nat) -> string, k: nat)
    requires IsWord(w)
    ensures ReplaceTokens("{" + w + "}" + rest, sub, k) == sub(w, k) + ReplaceTokens(rest, sub, k + 1)
  {
    var s := "{" + w + "}" + rest;
    assert forall i :: 1 <= i <= |w| ==> s[i] == w[i - 1];
    assert s[|w| + 1] == '}';
    var e := WordRunEnd(s, 1);
    assert e == |w| + 1;
    assert TokenEnd(s) == Some(|w| + 2);
    assert s[1..|w| + 1] == w;
    assert s[|w| + 2..] == rest;
  }

  function DigitChar(d: nat): char
    requires d < 10
  {
    "0123456789"[d]
  }

  function NatToString(n: nat): (r: string)
    ensures |r| >= 1
    ensures forall i :: 0 <= i < |r| ==> IsDigit(r[i])
  {
    if n < 10 then [DigitChar(n)] else NatToString(n / 10) + [DigitChar(n % 10)]
  }

  function IntToString(n: int): string {
    if n < 0 then "-" + NatToString(-n) else NatToString(n)
  }

  /** The value of a run of decimal digits. */
  function DecimalValue(digits: string): nat
    requires forall i :: 0 <= i < |digits| ==> IsDigit(digits[i])
    decreases |digits|
  {
    if digits == [] then 0
    else
      assert IsDigit(digits[|digits| - 1]);
      DecimalValue(digits[..|digits| - 1]) * 10 + (digits[|digits| - 1] as int - '0' as int)
  }

  predicate IsHexDigit(c: char) {
    IsDigit(c) || ('a' <= c <= 'f')
  }

  function HexDigit(d: nat): (c: char)
    requires d < 16
    ensures IsHexDigit(c)
  {
    "0123456789abcdef"[d]
  }

  /** `Buffer.toString('hex')`: byte `i` becomes the characters `2*i` and
      `2*i+1`, its high and its low nibble as lower-case hex digits. */
  function Hex(bytes: seq<bv8>): (r: string)
    ensures |r| == 2 * |bytes|
    ensures forall i :: 0 <= i < |bytes| ==> r[2 * i] == HexDigit(bytes[i] as nat / 16) && r[2 * i + 1] == HexDigit(bytes[i] as nat % 16)
    ensures forall i :: 0 <= i < |r| ==> IsHexDigit(r[i])
  {
    if bytes == [] then ""
    else [HexDigit(bytes[0] as nat / 16), HexDigit(bytes[0] as nat % 16)] + Hex(bytes[1..])
  }
}
