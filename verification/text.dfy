/**
 * The JavaScript string operations the TypeScript sources rely on, over `seq<char>`:
 * `trim`, `split`, `join`, `toLowerCase`/`toUpperCase` (ASCII letters only), `startsWith`,
 * `parseInt`, decimal rendering of naturals, and the "first n characters + ..." truncation.
 */
module Text {
  import opened Wrappers

  /** The characters ECMAScript's `trim` removes: WhiteSpace and LineTerminator code points. */
  predicate IsSpace(c: char) {
    c == '\t' || c == '\n' || c == '\U{000B}' || c == '\U{000C}' || c == '\r' || c == ' ' ||
    c == '\U{00A0}' || c == '\U{1680}' || ('\U{2000}' <= c <= '\U{200A}') ||
    c == '\U{2028}' || c == '\U{2029}' || c == '\U{202F}' || c == '\U{205F}' ||
    c == '\U{3000}' || c == '\U{FEFF}'
  }

  predicate AllSpace(s: string) {
    forall i :: 0 <= i < |s| ==> IsSpace(s[i])
  }

  /** No white space at either end. */
  predicate Tight(s: string) {
    s == [] || (!IsSpace(s[0]) && !IsSpace(s[|s| - 1]))
  }

  /** `s` with its leading white space removed. */
  function TrimStart(s: string): (r: string)
    ensures |r| <= |s|
    ensures r == [] || !IsSpace(r[0])
    ensures forall i :: 0 <= i < |s| - |r| ==> IsSpace(s[i])
  {
    if s != [] && IsSpace(s[0]) then TrimStart(s[1..]) else s
  }

  /** What `TrimStart` keeps is the end of the string, after white space only. */
  lemma {:induction false} TrimStartSplits(s: string)
    ensures TrimStart(s) == s[|s| - |TrimStart(s)|..]
    ensures AllSpace(s[..|s| - |TrimStart(s)|])
  {
    if s != [] && IsSpace(s[0]) {
      var r := TrimStart(s[1..]);
      TrimStartSplits(s[1..]);
      assert s[1..][|s| - 1 - |r|..] == s[|s| - |r|..];
    }
  }

  /** `s` with its trailing white space removed. */
  function TrimEnd(s: string): (r: string)
    ensures |r| <= |s| && r == s[..|r|]
    ensures r == [] || !IsSpace(r[|r| - 1])
    ensures forall i :: |r| <= i < |s| ==> IsSpace(s[i])
  {
    if s != [] && IsSpace(s[|s| - 1]) then TrimEnd(s[..|s| - 1]) else s
  }

  /** What `TrimEnd` removes is white space. */
  lemma TrimEndSplits(s: string)
    ensures AllSpace(s[|TrimEnd(s)|..])
  {
  }

  /** JavaScript's `s.trim()`. */
  function Trim(s: string): string {
    TrimEnd(TrimStart(s))
  }

  /** JavaScript's `!s.trim()`: nothing but white space. */
  predicate IsBlank(s: string) {
    Trim(s) == []
  }

  /** A string is blank exactly when every character of it is white space. */
  lemma {:induction false} BlankIffAllSpace(s: string)
    ensures IsBlank(s) <==> AllSpace(s)
  {
    var t := TrimStart(s);
    TrimStartSplits(s);
    assert s == s[..|s| - |t|] + t;
    if IsBlank(s) {
      var r := TrimEnd(t);
      assert t[|r|..] == t;
      assert t == [];
      assert s == s[..|s| - |t|];
    }
  }

  /** The result of `trim` has no white space at either end. */
  lemma TrimIsTight(s: string)
    ensures Tight(Trim(s))
  {
    var t := TrimStart(s);
    var r := TrimEnd(t);
    if r != [] {
      assert r[0] == t[0];
    }
  }

  /** A string with no white space at its ends is its own trim. */
  lemma TightTrimFixed(s: string)
    requires Tight(s)
    ensures Trim(s) == s
  {
  }

  /** Trimming twice is trimming once. */
  lemma TrimIdempotent(s: string)
    ensures Trim(Trim(s)) == Trim(s)
  {
    TrimIsTight(s);
    TightTrimFixed(Trim(s));
  }

  lemma {:induction false} TrimStartPadded(p: string, s: string)
    requires AllSpace(p)
    requires s == [] || !IsSpace(s[0])
    ensures TrimStart(p + s) == s
  {
    if p != [] {
      assert (p + s)[1..] == p[1..] + s;
      TrimStartPadded(p[1..], s);
    } else {
      assert p + s == s;
    }
  }

  lemma {:induction false} TrimEndPadded(s: string, q: string)
    requires AllSpace(q)
    requires s == [] || !IsSpace(s[|s| - 1])
    ensures TrimEnd(s + q) == s
  {
    if q != [] {
      assert (s + q)[..|s + q| - 1] == s + q[..|q| - 1];
      TrimEndPadded(s, q[..|q| - 1]);
    } else {
      assert s + q == s;
    }
  }

  /** Trimming strips exactly the white-space padding around a tight string. */
  lemma TrimPadded(p: string, s: string, q: string)
    requires AllSpace(p) && AllSpace(q) && Tight(s)
    ensures Trim(p + s + q) == s
  {
    if s == [] {
      assert p + s + q == p + q;
      assert AllSpace(p + q) by {
        forall i | 0 <= i < |p + q| ensures IsSpace((p + q)[i]) {
          if i >= |p| {
            assert (p + q)[i] == q[i - |p|];
          }
        }
      }
      BlankIffAllSpace(p + q);
    } else {
      assert p + s + q == p + (s + q);
      TrimStartPadded(p, s + q);
      TrimEndPadded(s, q);
    }
  }

  /** JavaScript's `s.split(sep)` for a one-character separator. */
  function Split(s: string, sep: char): (parts: seq<string>)
    ensures |parts| >= 1
    ensures forall i :: 0 <= i < |parts| ==> sep !in parts[i]
  {
    if s == [] then [[]]
    else
      var rest := Split(s[1..], sep);
      if s[0] == sep then [[]] + rest else [[s[0]] + rest[0]] + rest[1..]
  }

  /** JavaScript's `parts.join(sep)`. */
  function Join(parts: seq<string>, sep: string): string {
    if |parts| == 0 then []
    else if |parts| == 1 then parts[0]
    else parts[0] + sep + Join(parts[1..], sep)
  }

  lemma JoinCons(x: string, parts: seq<string>, sep: string)
    requires |parts| >= 1
    ensures Join([x + parts[0]] + parts[1..], sep) == x + Join(parts, sep)
  {
    var l := [x + parts[0]] + parts[1..];
    assert l[1..] == parts[1..];
  }

  /** Joining the pieces of a split with the separator gives the string back. */
  lemma {:induction false} JoinSplit(s: string, sep: char)
    ensures Join(Split(s, sep), [sep]) == s
  {
    if s != [] {
      var rest := Split(s[1..], sep);
      JoinSplit(s[1..], sep);
      if s[0] == sep {
        var l := [[]] + rest;
        assert l[1..] == rest;
        assert s == [sep] + s[1..];
      } else {
        JoinCons([s[0]], rest, [sep]);
        assert s == [s[0]] + s[1..];
      }
    }
  }

  lemma {:induction false} SplitNoSeparator(a: string, sep: char)
    requires sep !in a
    ensures Split(a, sep) == [a]
  {
    if a != [] {
      SplitNoSeparator(a[1..], sep);
      assert a == [a[0]] + a[1..];
    }
  }

  lemma {:induction false} SplitAtSeparator(a: string, b: string, sep: char)
    requires sep !in a
    ensures Split(a + [sep] + b, sep) == [a] + Split(b, sep)
  {
    var s := a + [sep] + b;
    if a == [] {
      assert s[1..] == b;
    } else {
      assert s[1..] == a[1..] + [sep] + b;
      SplitAtSeparator(a[1..], b, sep);
      assert a == [a[0]] + a[1..];
    }
  }

  /** Splitting a join of separator-free pieces gives the pieces back. */
  lemma {:induction false} SplitJoin(parts: seq<string>, sep: char)
    requires |parts| >= 1
    requires forall i :: 0 <= i < |parts| ==> sep !in parts[i]
    ensures Split(Join(parts, [sep]), sep) == parts
  {
    if |parts| == 1 {
      SplitNoSeparator(parts[0], sep);
    } else {
      SplitAtSeparator(parts[0], Join(parts[1..], [sep]), sep);
      SplitJoin(parts[1..], sep);
      assert parts == [parts[0]] + parts[1..];
    }
  }
  /** Every character of the trimmed string occurs in the original. */
  lemma TrimWithin(s: string, c: char)
    requires c in Trim(s)
    ensures c in s
  {
    var t := TrimStart(s);
    var r := TrimEnd(t);
    TrimStartSplits(s);
    var k :| 0 <= k < |r| && r[k] == c;
    assert r[k] == t[k];
    assert t[k] == s[|s| - |t| + k];
  }

  /** Trimming brings in no character. */
  lemma TrimWithout(s: string, c: char)
    requires c !in s
    ensures c !in Trim(s)
  {
    if c in Trim(s) {
      TrimWithin(s, c);
    }
  }

  /** The pieces of a split are made of the string's characters. */
  lemma {:induction false} SplitWithin(s: string, sep: char, i: nat, c: char)
    requires i < |Split(s, sep)| && c in Split(s, sep)[i]
    ensures c in s
  {
    if s != [] {
      assert s == [s[0]] + s[1..];
      if c != s[0] {
        if s[0] == sep {
          SplitWithin(s[1..], sep, i - 1, c);
        } else {
          SplitWithin(s[1..], sep, i, c);
        }
      }
    }
  }

  lemma AllSpaceConcat(a: string, b: string)
    requires AllSpace(a) && AllSpace(b)
    ensures AllSpace(a + b)
  {
    forall k | 0 <= k < |a + b| ensures IsSpace((a + b)[k]) {
      if k >= |a| {
        assert (a + b)[k] == b[k - |a|];
      }
    }
  }

  /** Joining white-space pieces with a white-space separator gives white space. */
  lemma {:induction false} JoinAllSpace(parts: seq<string>, sep: string)
    requires AllSpace(sep) && forall i :: 0 <= i < |parts| ==> AllSpace(parts[i])
    ensures AllSpace(Join(parts, sep))
  {
    if |parts| > 1 {
      JoinAllSpace(parts[1..], sep);
      AllSpaceConcat(parts[0], sep);
      AllSpaceConcat(parts[0] + sep, Join(parts[1..], sep));
    }
  }

  /**
   * `toLowerCase` on one character: the ASCII letters, and the Kelvin sign U+212A, the one
   * character outside ASCII whose lower case is an ASCII letter ("k"). Other letters are kept.
   */
  function LowerChar(c: char): char {
    if 'A' <= c <= 'Z' then (c as int + 32) as char
    else if c == '\U{212A}' then 'k'
    else c
  }

  /** `toUpperCase` on one character; only the ASCII letters are mapped. */
  function UpperChar(c: char): char {
    if 'a' <= c <= 'z' then (c as int - 32) as char else c
  }

  function Lower(s: string): (r: string)
    ensures |r| == |s| && forall i :: 0 <= i < |s| ==> r[i] == LowerChar(s[i])
  {
    seq(|s|, i requires 0 <= i < |s| => LowerChar(s[i]))
  }

  function Upper(s: string): (r: string)
    ensures |r| == |s| && forall i :: 0 <= i < |s| ==> r[i] == UpperChar(s[i])
  {
    seq(|s|, i requires 0 <= i < |s| => UpperChar(s[i]))
  }

  /** Lower-casing forgets any earlier upper-casing. */
  lemma LowerOfUpper(s: string)
    ensures Lower(Upper(s)) == Lower(s)
  {
  }

  /** `s.startsWith(p)`. */
  predicate StartsWith(s: string, p: string) {
    |p| <= |s| && s[..|p|] == p
  }

  /** `s.length > n ? s.substring(0, n) + "..." : s`. */
  function Truncate(s: string, n: nat): (r: string)
    ensures |s| <= n ==> r == s
    ensures |s| > n ==> |r| == n + 3 && r[..n] == s[..n] && r[n..] == "..."
  {
    if |s| > n then s[..n] + "..." else s
  }

  /* ---------- digits, `parseInt` and decimal rendering ---------- */

  /** The digit value of `c` in any radix up to 36 (36 for a non-digit). */
  function CharValue(c: char): nat {
    if '0' <= c <= '9' then c as int - '0' as int
    else if 'a' <= c <= 'z' then c as int - 'a' as int + 10
    else if 'A' <= c <= 'Z' then c as int - 'A' as int + 10
    else 36
  }

  predicate IsDigitIn(c: char, radix: nat) {
    CharValue(c) < radix
  }

  predicate AllDigitsIn(s: string, radix: nat) {
    forall i :: 0 <= i < |s| ==> IsDigitIn(s[i], radix)
  }

  /** The longest prefix of `s` made of digits of `radix`. */
  function LeadingRun(s: string, radix: nat): (r: string)
    ensures |r| <= |s| && r == s[..|r|] && AllDigitsIn(r, radix)
    ensures |r| < |s| ==> !IsDigitIn(s[|r|], radix)
  {
    if s != [] && IsDigitIn(s[0], radix) then
      var r := [s[0]] + LeadingRun(s[1..], radix);
      assert r == s[..|r|];
      r
    else []
  }

  /** The number a digit string denotes in `radix`. */
  function RunValue(s: string, radix: nat): nat
    requires AllDigitsIn(s, radix)
  {
    if s == [] then 0 else RunValue(s[..|s| - 1], radix) * radix + CharValue(s[|s| - 1])
  }

  function DigitChar(d: nat): (c: char)
    requires d < 10
    ensures IsDigitIn(c, 10) && CharValue(c) == d
  {
    ('0' as int + d) as char
  }

  /** `String(n)` for a natural number. */
  function NatToString(n: nat): (s: string)
    ensures |s| >= 1 && AllDigitsIn(s, 10)
  {
    if n < 10 then [DigitChar(n)] else NatToString(n / 10) + [DigitChar(n % 10)]
  }

  /** Rendering a natural and reading the digits back gives the natural. */
  lemma {:induction false} NatToStringValue(n: nat)
    ensures RunValue(NatToString(n), 10) == n
  {
    var s := NatToString(n);
    if n >= 10 {
      NatToStringValue(n / 10);
      assert s[..|s| - 1] == NatToString(n / 10);
    } else {
      assert s[..|s| - 1] == [];
    }
  }

  lemma LeadingRunOfDigits(s: string, radix: nat)
    requires AllDigitsIn(s, radix)
    ensures LeadingRun(s, radix) == s
  {
  }

  /** The value of the longest leading digit run of `s` in `base`, or None when there is none. */
  function RunOf(s: string, base: nat): Option<nat> {
    var d := LeadingRun(s, base);
    if d == [] then None else Some(RunValue(d, base))
  }

  predicate HexPrefixed(s: string) {
    |s| >= 2 && s[0] == '0' && (s[1] == 'x' || s[1] == 'X')
  }

  /** The unsigned part: with no radix given, a `0x`/`0X` prefix selects base 16, else base 10. */
  function ParseDigits(body: string, radix: Option<nat>): Option<nat> {
    if radix.None? && HexPrefixed(body) then RunOf(body[2..], 16) else RunOf(body, radix.GetOr(10))
  }

  function ParseSigned(t: string, radix: Option<nat>): Option<int> {
    if t != [] && t[0] == '-' then
      var d := ParseDigits(t[1..], radix);
      if d.None? then None else Some(0 - d.value)
    else if t != [] && t[0] == '+' then
      var d := ParseDigits(t[1..], radix);
      if d.None? then None else Some(d.value)
    else
      var d := ParseDigits(t, radix);
      if d.None? then None else Some(d.value)
  }

  /**
   * JavaScript's `parseInt(s, radix)`: leading white space is skipped, then an optional sign,
   * then the longest run of digits; no digits gives NaN (here None).
   */
  function ParseIntWith(s: string, radix: Option<nat>): Option<int> {
    ParseSigned(TrimStart(s), radix)
  }

  /** `parseInt(s, 10)`. */
  function ParseInt10(s: string): Option<int> {
    ParseIntWith(s, Some(10))
  }

  /** `parseInt(s)` with no radix argument. */
  function ParseIntAuto(s: string): Option<int> {
    ParseIntWith(s, None)
  }

  /** `parseInt(...) || d`: NaN and 0 are both falsy and give the default. */
  function OrDefault(p: Option<int>, d: int): (r: int)
    ensures p.Some? && p.value != 0 ==> r == p.value
    ensures p.None? || p.value == 0 ==> r == d
  {
    if p.None? || p.value == 0 then d else p.value
  }

  lemma DecimalDigitFacts(c: char)
    requires IsDigitIn(c, 10)
    ensures '0' <= c <= '9' && !IsSpace(c) && c != '-' && c != '+' && c != 'x' && c != 'X'
  {
  }

  lemma TrimStartOfUnpadded(s: string)
    requires s != [] && !IsSpace(s[0])
    ensures TrimStart(s) == s
  {
  }

  /** Rendering a natural and parsing it in base 10 is the identity. */
  lemma ParseInt10OfNat(n: nat)
    ensures ParseInt10(NatToString(n)) == Some(n)
  {
    var s := NatToString(n);
    DecimalDigitFacts(s[0]);
    TrimStartOfUnpadded(s);
    LeadingRunOfDigits(s, 10);
    NatToStringValue(n);
    assert ParseDigits(s, Some(10)) == Some(n);
  }

  /** The digit run of a digit string followed by a non-digit is that string. */
  lemma {:induction false} LeadingRunStops(s: string, t: string, radix: nat)
    requires AllDigitsIn(s, radix)
    requires t != [] ==> !IsDigitIn(t[0], radix)
    ensures LeadingRun(s + t, radix) == s
  {
    if s == [] {
      assert s + t == t;
    } else {
      assert (s + t)[1..] == s[1..] + t;
      LeadingRunStops(s[1..], t, radix);
    }
  }

  /** `parseInt(s, 10)` stops at the first character that is not a digit. */
  lemma ParseInt10OfNatThen(n: nat, t: string)
    requires t != [] ==> !IsDigitIn(t[0], 10)
    ensures ParseInt10(NatToString(n) + t) == Some(n)
  {
    var s := NatToString(n);
    var u := s + t;
    DecimalDigitFacts(s[0]);
    TrimStartOfUnpadded(u);
    LeadingRunStops(s, t, 10);
    NatToStringValue(n);
    assert ParseDigits(u, Some(10)) == Some(n);
  }

  /** The same holds without a radix: a decimal rendering never starts with `0x`. */
  lemma ParseIntAutoOfNat(n: nat)
    ensures ParseIntAuto(NatToString(n)) == Some(n)
  {
    var s := NatToString(n);
    DecimalDigitFacts(s[0]);
    TrimStartOfUnpadded(s);
    assert !HexPrefixed(s) by {
      if |s| >= 2 {
        DecimalDigitFacts(s[1]);
      }
    }
    LeadingRunOfDigits(s, 10);
    NatToStringValue(n);
    var none: Option<nat> := None;
    assert none.GetOr(10) == 10;
    assert RunOf(s, 10) == Some(n);
    assert ParseDigits(s, none) == Some(n);
  }

  /** Two-digit rendering with a leading zero, for 0..99. */
  function Pad2(n: nat): (s: string)
    requires n < 100
    ensures |s| == 2 && AllDigitsIn(s, 10) && RunValue(s, 10) == n
  {
    var s := [DigitChar(n / 10), DigitChar(n % 10)];
    assert s[..1][..0] == [];
    assert RunValue(s[..1], 10) == n / 10;
    s
  }

  /** `s || d` for a nullable string: null, undefined and the empty string all give `d`. */
  function OrText(s: Option<string>, d: string): (r: string)
    ensures s.Some? && s.value != [] ==> r == s.value
    ensures s.None? || s.value == [] ==> r == d
  {
    if s.Some? && s.value != [] then s.value else d
  }
}
