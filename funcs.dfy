/** `util/funcs.ts`: the parsers applied to environment strings. */
module Funcs {
  import opened Wrappers
  import opened JsString

  /** Leading and trailing white space, with ASCII case folded, in either order. */
  lemma {:induction false} TrimLowerCommute(s: string)
    ensures Trim(ToLower(s)) == ToLower(Trim(s))
  {
    TrimStartLower(s);
    TrimEndLower(TrimStart(s));
  }

  /** No white-space character is an upper-case ASCII letter. */
  lemma LowerKeepsSpace(c: char)
    ensures IsSpace(ToLowerChar(c)) == IsSpace(c)
  {
    if 'A' <= c <= 'Z' {
      assert 'a' <= ToLowerChar(c) <= 'z';
    }
  }

  lemma {:induction false} TrimStartLower(s: string)
    ensures TrimStart(ToLower(s)) == ToLower(TrimStart(s))
    decreases |s|
  {
    var l := ToLower(s);
    if s != [] {
      LowerKeepsSpace(s[0]);
      assert l[0] == ToLowerChar(s[0]);
      if IsSpace(s[0]) {
        assert l[1..] == ToLower(s[1..]);
        TrimStartLower(s[1..]);
      }
    }
  }

  lemma {:induction false} TrimEndLower(s: string)
    ensures TrimEnd(ToLower(s)) == ToLower(TrimEnd(s))
    decreases |s|
  {
    var l := ToLower(s);
    if s != [] {
      LowerKeepsSpace(s[|s| - 1]);
      assert l[|s| - 1] == ToLowerChar(s[|s| - 1]);
      if IsSpace(s[|s| - 1]) {
        assert l[..|s| - 1] == ToLower(s[..|s| - 1]);
        TrimEndLower(s[..|s| - 1]);
      }
    }
  }

  /** `boolParse(s, falsy)`: `true` for `"true"` in any case and padding,
      otherwise `falsy` (whose default is `undefined`, here `None`). */
  function BoolParse(s: Option<string>, falsy: Option<bool>): (r: Option<bool>)
    ensures s.Some? && ToLower(Trim(s.value)) == "true" ==> r == Some(true)
    ensures !(s.Some? && ToLower(Trim(s.value)) == "true") ==> r == falsy
  {
    match s
    case None => falsy
    case Some(str) =>
      TrimLowerCommute(str);
      if Trim(ToLower(str)) == "true" then Some(true) else falsy
  }

  /** The value of a digit character in base 10 or 16, either case. */
  function DigitValue(c: char, radix: nat): Option<nat> {
    if IsDigit(c) then Some(c as int - '0' as int)
    else if radix == 16 && 'a' <= c <= 'f' then Some(c as int - 'a' as int + 10)
    else if radix == 16 && 'A' <= c <= 'F' then Some(c as int - 'A' as int + 10)
    else None
  }

  /** The longest prefix of `s` made of digits of the radix. */
  function DigitPrefix(s: string, radix: nat): (r: string)
    ensures r <= s && forall i :: 0 <= i < |r| ==> DigitValue(r[i], radix).Some?
    ensures |r| < |s| ==> DigitValue(s[|r|], radix).None?
    decreases |s|
  {
    if s != [] && DigitValue(s[0], radix).Some? then [s[0]] + DigitPrefix(s[1..], radix) else ""
  }

  function DigitsValue(ds: string, radix: nat): nat
    requires forall i :: 0 <= i < |ds| ==> DigitValue(ds[i], radix).Some?
    decreases |ds|
  {
    if ds == [] then 0
    else
      assert DigitValue(ds[|ds| - 1], radix).Some?;
      DigitsValue(ds[..|ds| - 1], radix) * radix + DigitValue(ds[|ds| - 1], radix).value
  }

  /** The longest run of digits of the radix at the start of `u`, read as a number. */
  function ParseDigits(u: string, radix: nat): Option<nat> {
    var ds := DigitPrefix(u, radix);
    if ds == [] then None else Some(DigitsValue(ds, radix))
  }

  predicate HasHexPrefix(u: string) {
    |u| >= 2 && u[0] == '0' && (u[1] == 'x' || u[1] == 'X')
  }

  /** A numeral without its sign: `0x`/`0X` selects base 16. */
  function ParseUnsigned(u: string): Option<nat> {
    if HasHexPrefix(u) then ParseDigits(u[2..], 16) else ParseDigits(u, 10)
  }

  /** `parseInt(s)` with no radix: leading white space skipped, an optional
      sign, then the unsigned numeral; `None` stands for `NaN`. */
  function ParseInt(s: string): Option<int> {
    var t := TrimStart(s);
    var negative := t != [] && t[0] == '-';
    var u := if t != [] && (t[0] == '-' || t[0] == '+') then t[1..] else t;
    match ParseUnsigned(u)
    case None => None
    case Some(v) => Some(if negative then -(v as int) else v)
  }

  /** `intParse(s, falsy)`: `falsy` for a missing or empty string and for
      `NaN`, the `parseInt` value otherwise. */
  function IntParse(s: Option<string>, falsy: Option<int>): Option<int> {
    if s.None? || s.value == "" then falsy
    else match ParseInt(s.value)
      case None => falsy
      case Some(n) => Some(n)
  }

  lemma DigitCharValue(d: nat)
    requires d < 10
    ensures DigitValue(DigitChar(d), 10) == Some(d)
  {
  }

  /** Decimal digits read back to the number they were written from. */
  lemma {:induction false} NatToStringValue(n: nat)
    ensures DigitsValue(NatToString(n), 10) == n
    decreases n
  {
    var s := NatToString(n);
    if n < 10 {
      DigitCharValue(n);
    } else {
      NatToStringValue(n / 10);
      DigitCharValue(n % 10);
      assert s[..|s| - 1] == NatToString(n / 10);
    }
  }

  lemma {:induction false} DigitPrefixOfDigits(ds: string, rest: string)
    requires forall i :: 0 <= i < |ds| ==> IsDigit(ds[i])
    requires rest == [] || DigitValue(rest[0], 10).None?
    ensures DigitPrefix(ds + rest, 10) == ds
    decreases |ds|
  {
    if ds == [] {
    } else {
      assert (ds + rest)[1..] == ds[1..] + rest;
      DigitPrefixOfDigits(ds[1..], rest);
    }
  }

  /** An unsigned decimal numeral followed by a non-digit reads back. */
  lemma ParseUnsignedWritten(m: nat, rest: string)
    requires rest == [] || (!IsDigit(rest[0]) && rest[0] != 'x' && rest[0] != 'X')
    ensures ParseUnsigned(NatToString(m) + rest) == Some(m)
  {
    var ds := NatToString(m);
    var u := ds + rest;
    if |ds| >= 2 {
      assert u[1] == ds[1] && IsDigit(ds[1]);
    } else if rest != [] {
      assert u[1] == rest[0];
    }
    assert !HasHexPrefix(u);
    DigitPrefixOfDigits(ds, rest);
    NatToStringValue(m);
  }

  /** `parseInt` of text that starts with a digit, with or without a minus sign. */
  lemma ParseIntSigned(u: string, negative: bool)
    requires u != [] && IsDigit(u[0])
    ensures ParseInt(if negative then "-" + u else u) ==
      match ParseUnsigned(u)
      case None => None
      case Some(v) => Some(if negative then -(v as int) else v)
  {
    var s := if negative then "-" + u else u;
    assert s[0] == (if negative then '-' else u[0]);
    TrimStartNoSpace(s);
    if negative {
      assert s[1..] == u;
    }
  }

  /** A written integer is its sign, then its digits. */
  lemma WrittenSign(n: int, rest: string)
    ensures var m: nat := if n < 0 then -n else n;
      IntToString(n) + rest == if n < 0 then "-" + (NatToString(m) + rest) else NatToString(m) + rest
  {
    var m: nat := if n < 0 then -n else n;
    if n < 0 {
      assert ("-" + NatToString(m)) + rest == "-" + (NatToString(m) + rest);
    }
  }

  lemma IntParseOfParsed(x: string, v: int, falsy: Option<int>)
    requires x != "" && ParseInt(x) == Some(v)
    ensures IntParse(Some(x), falsy) == Some(v)
  {
  }

  /** `parseInt` reads back a written integer, and stops at the first
      character that is not a digit: `intParse("12px")` is 12. A trailing
      `x` after a lone `0` would turn the text into a hex prefix. */
  lemma IntParseWritten(n: int, rest: string, falsy: Option<int>)
    requires rest == [] || (!IsDigit(rest[0]) && rest[0] != 'x' && rest[0] != 'X')
    ensures IntParse(Some(IntToString(n) + rest), falsy) == Some(n)
  {
    var m: nat := if n < 0 then -n else n;
    var u := NatToString(m) + rest;
    ParseUnsignedWritten(m, rest);
    assert u[0] == NatToString(m)[0];
    ParseIntSigned(u, n < 0);
    WrittenSign(n, rest);
    IntParseOfParsed(IntToString(n) + rest, n, falsy);
  }

  /** With no digit anywhere, `intParse` falls back to `falsy`. */
  lemma IntParseNoDigits(s: string, falsy: Option<int>)
    requires forall i :: 0 <= i < |s| ==> !IsDigit(s[i])
    ensures IntParse(Some(s), falsy) == falsy
  {
    var t := TrimStart(s);
    TrimStartSuffix(s);
    var u := if t != [] && (t[0] == '-' || t[0] == '+') then t[1..] else t;
    assert forall i :: 0 <= i < |t| ==> t[i] == s[|s| - |t| + i];
    assert forall i :: 0 <= i < |u| ==> !IsDigit(u[i]);
    assert !(|u| >= 2 && u[0] == '0');
    if u != [] {
      assert u[0] in u;
    }
  }

  /** What `csvParse` hands back: `false` for a non-string input, else the items. */
  datatype CsvResult = NotAString | Items(items: seq<string>)

  predicate IsTrimmed(x: string) {
    x != [] && !IsSpace(x[0]) && !IsSpace(x[|x| - 1])
  }

  /** Each piece trimmed, empty pieces dropped. */
  function TrimAndDropEmpty(parts: seq<string>): (r: seq<string>)
    ensures forall i :: 0 <= i < |r| ==> IsTrimmed(r[i])
    ensures |r| <= |parts|
  {
    if parts == [] then []
    else
      var t := Trim(parts[0]);
      (if t == "" then [] else [t]) + TrimAndDropEmpty(parts[1..])
  }

  /** The separator `csvParse` uses when none is given. */
  function DefaultSeparator(s: string): string {
    if ';' in s then ";" else ","
  }

  /** `csvParse(s, sep)`. */
  function CsvParse(s: Option<string>, sep: Option<string>): (r: CsvResult)
    ensures s.None? <==> r.NotAString?
    ensures r.Items? ==> forall i :: 0 <= i < |r.items| ==> IsTrimmed(r.items[i])
  {
    match s
    case None => NotAString
    case Some(str) =>
      var sp := if sep.Some? then sep.value else DefaultSeparator(str);
      Items(TrimAndDropEmpty(SplitBy(str, sp)))
  }

  lemma TrimOfTrimmed(x: string)
    requires IsTrimmed(x)
    ensures Trim(x) == x
  {
  }

  /** Trimmed items with no comma or semicolon, joined with `,`, parse back to themselves. */
  lemma {:induction false} CsvParseJoined(items: seq<string>)
    requires |items| >= 1
    requires forall i :: 0 <= i < |items| ==> IsTrimmed(items[i]) && ',' !in items[i] && ';' !in items[i]
    ensures CsvParse(Some(Join(items, ",")), None) == Items(items)
  {
    JoinSplit(items, ',');
    NoSemicolonInJoin(items);
    TrimAndDropKeeps(items);
  }

  /** The same items joined with `;` parse back too, though a `,` may then appear in an item. */
  lemma {:induction false} CsvParseJoinedSemicolon(items: seq<string>)
    requires |items| >= 2
    requires forall i :: 0 <= i < |items| ==> IsTrimmed(items[i]) && ';' !in items[i]
    ensures CsvParse(Some(Join(items, ";")), None) == Items(items)
  {
    JoinSplit(items, ';');
    assert ';' in Join(items, ";") by {
      assert Join(items, ";") == items[0] + ";" + Join(items[1..], ";");
      assert Join(items, ";")[|items[0]|] == ';';
    }
    TrimAndDropKeeps(items);
  }

  lemma {:induction false} NoSemicolonInJoin(items: seq<string>)
    requires forall i :: 0 <= i < |items| ==> ';' !in items[i]
    ensures ';' !in Join(items, ",")
    decreases |items|
  {
    if |items| > 1 {
      NoSemicolonInJoin(items[1..]);
    }
  }

  lemma {:induction false} TrimAndDropKeeps(items: seq<string>)
    requires forall i :: 0 <= i < |items| ==> IsTrimmed(items[i])
    ensures TrimAndDropEmpty(items) == items
    decreases |items|
  {
    if items != [] {
      TrimOfTrimmed(items[0]);
      assert TrimAndDropEmpty(items) == [items[0]] + TrimAndDropEmpty(items[1..]);
      TrimAndDropKeeps(items[1..]);
    }
  }
}
