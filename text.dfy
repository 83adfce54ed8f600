/**
 * The string operations of the Kotlin standard library that the app relies on
 * (`trim`, `isBlank`, `lowercase`, `indexOf(..., ignoreCase)`, `contains`,
 * `replace`, `Int.toString`), stated over Dafny's `string` (a `seq<char>`).
 */
module Text {
  import opened Wrappers

  // ---------------------------------------------------------------------------
  // Character classes
  // ---------------------------------------------------------------------------

  /**
   * Kotlin's `Char.isWhitespace()` on the JVM: `Character.isWhitespace` or
   * `Character.isSpaceChar` (the ASCII controls, the space, line and paragraph
   * separators of Unicode, including the no-break spaces).
   */
  predicate IsWhitespace(c: char) {
    || c == ' ' || c == '\t' || c == '\n' || c == '\U{000B}' || c == '\U{000C}' || c == '\r'
    || ('\U{001C}' <= c <= '\U{001F}')
    || c == '\U{00A0}' || c == '\U{1680}'
    || ('\U{2000}' <= c <= '\U{200A}')
    || c == '\U{2028}' || c == '\U{2029}' || c == '\U{202F}' || c == '\U{205F}' || c == '\U{3000}'
  }

  /** The class `\s` of `java.util.regex` without UNICODE_CHARACTER_CLASS: `[ \t\n\x0B\f\r]`. */
  predicate IsRegexSpace(c: char) {
    c == ' ' || c == '\t' || c == '\n' || c == '\U{000B}' || c == '\U{000C}' || c == '\r'
  }

  /**
   * Lower-casing of one character: ASCII, Latin-1 and the basic Cyrillic block
   * (А-Я, Ѐ-Џ including Ё). Letters outside these ranges are left as they are.
   */
  function Lower(c: char): (r: char)
    ensures IsWhitespace(c) ==> r == c
    ensures IsWhitespace(r) <==> IsWhitespace(c)
    ensures IsRegexSpace(r) <==> IsRegexSpace(c)
  {
    if 'A' <= c <= 'Z' then (c as int + 32) as char
    else if '\U{00C0}' <= c <= '\U{00DE}' && c != '\U{00D7}' then (c as int + 32) as char
    else if '\U{0400}' <= c <= '\U{040F}' then (c as int + 80) as char
    else if '\U{0410}' <= c <= '\U{042F}' then (c as int + 32) as char
    else c
  }

  /** Lower-casing twice is lower-casing once. */
  lemma LowerIdempotent(c: char)
    ensures Lower(Lower(c)) == Lower(c)
  {
  }

  /** `String.lowercase()`, character by character. */
  function LowerS(s: string): (r: string)
    ensures |r| == |s|
    ensures forall k :: 0 <= k < |s| ==> r[k] == Lower(s[k])
  {
    seq(|s|, k requires 0 <= k < |s| => Lower(s[k]))
  }

  /** `String.replace(from: Char, to: Char)`. */
  function ReplaceChar(s: string, from: char, to: char): (r: string)
    ensures |r| == |s|
    ensures forall k :: 0 <= k < |s| ==> r[k] == (if s[k] == from then to else s[k])
  {
    seq(|s|, k requires 0 <= k < |s| => if s[k] == from then to else s[k])
  }

  // ---------------------------------------------------------------------------
  // trim and isBlank
  // ---------------------------------------------------------------------------

  /** `CharSequence.isBlank()`: every character is whitespace (true of ""). */
  predicate IsBlank(s: string) {
    forall k :: 0 <= k < |s| ==> IsWhitespace(s[k])
  }

  /** Concatenation of strings is associative. */
  lemma AppendAssoc(a: string, b: string, c: string)
    ensures a + b + c == a + (b + c)
  {
  }

  /** Dropping from a concatenation no further than its first part. */
  lemma DropAppend(x: string, z: string, k: int)
    requires 0 <= k <= |x|
    ensures (x + z)[k..] == x[k..] + z
  {
    assert forall m :: 0 <= m < |x| - k + |z| ==> (x + z)[k..][m] == (x[k..] + z)[m];
  }

  /** A string that is not blank has a character. */
  lemma NonBlankNonEmpty(s: string)
    requires !IsBlank(s)
    ensures s != []
  {
  }

  /** `s[i..j]` is what `trim()` keeps: whitespace outside, non-whitespace at both ends. */
  ghost predicate TrimmedAt(s: string, i: int, j: int) {
    && 0 <= i <= j <= |s|
    && (forall m :: 0 <= m < i ==> IsWhitespace(s[m]))
    && (forall m :: j <= m < |s| ==> IsWhitespace(s[m]))
    && (i < j ==> !IsWhitespace(s[i]) && !IsWhitespace(s[j - 1]))
  }

  function SkipLeading(s: string, i: nat): (k: nat)
    requires i <= |s|
    ensures i <= k <= |s|
    ensures forall m :: i <= m < k ==> IsWhitespace(s[m])
    ensures k < |s| ==> !IsWhitespace(s[k])
    decreases |s| - i
  {
    if i < |s| && IsWhitespace(s[i]) then SkipLeading(s, i + 1) else i
  }

  function SkipTrailing(s: string, lo: nat, j: nat): (k: nat)
    requires lo <= j <= |s|
    ensures lo <= k <= j
    ensures forall m :: k <= m < j ==> IsWhitespace(s[m])
    ensures k > lo ==> !IsWhitespace(s[k - 1])
    decreases j
  {
    if j > lo && IsWhitespace(s[j - 1]) then SkipTrailing(s, lo, j - 1) else j
  }

  /** Index of the first character `trim()` keeps. */
  function TrimStart(s: string): (k: nat)
    ensures k <= |s|
    ensures forall m :: 0 <= m < k ==> IsWhitespace(s[m])
    ensures k < |s| ==> !IsWhitespace(s[k])
  {
    SkipLeading(s, 0)
  }

  /** Index just past the last character `trim()` keeps. */
  function TrimEnd(s: string): (k: nat)
    ensures TrimmedAt(s, TrimStart(s), k)
  {
    SkipTrailing(s, TrimStart(s), |s|)
  }

  /** `String.trim()`: drops leading and trailing `isWhitespace` characters. */
  function Trim(s: string): (r: string)
    ensures |r| <= |s|
    ensures |r| > 0 ==> !IsWhitespace(r[0]) && !IsWhitespace(r[|r| - 1])
    ensures TrimmedAt(s, TrimStart(s), TrimEnd(s)) && r == s[TrimStart(s)..TrimEnd(s)]
  {
    s[TrimStart(s)..TrimEnd(s)]
  }

  /** Whatever bounds satisfy the trimming condition, they cut out `Trim(s)`. */
  lemma TrimUnique(s: string, i: int, j: int)
    requires TrimmedAt(s, i, j)
    ensures Trim(s) == s[i..j]
  {
    var i', j' := TrimStart(s), TrimEnd(s);
    if i < j {
      assert !IsWhitespace(s[i]);
      assert i' < j';
      assert i == i' by { assert !IsWhitespace(s[i']); }
      assert j == j' by { assert !IsWhitespace(s[j - 1]); }
    } else {
      assert IsBlank(s) by {
        forall m | 0 <= m < |s| ensures IsWhitespace(s[m]) { assert m < i || m >= j; }
      }
      assert i' == |s|;
    }
  }

  /** A string without whitespace at either end is its own trim. */
  lemma TrimNoop(s: string)
    requires |s| > 0 ==> !IsWhitespace(s[0]) && !IsWhitespace(s[|s| - 1])
    ensures Trim(s) == s
  {
    assert s == s[0..|s|];
    TrimUnique(s, 0, |s|);
  }

  lemma TrimIdempotent(s: string)
    ensures Trim(Trim(s)) == Trim(s)
  {
    TrimNoop(Trim(s));
  }

  /** `isBlank()` holds exactly when `trim()` leaves nothing. */
  lemma BlankIffTrimEmpty(s: string)
    ensures IsBlank(s) <==> Trim(s) == ""
  {
    if IsBlank(s) {
      assert TrimmedAt(s, 0, 0);
      TrimUnique(s, 0, 0);
    } else {
      var k :| 0 <= k < |s| && !IsWhitespace(s[k]);
      assert TrimStart(s) <= k < TrimEnd(s);
    }
  }

  /** A string is blank exactly when its trim is. */
  lemma BlankTrim(s: string)
    ensures IsBlank(Trim(s)) <==> IsBlank(s)
  {
    BlankIffTrimEmpty(s);
    BlankIffTrimEmpty(Trim(s));
    TrimIdempotent(s);
  }

  /** Whitespace in `s[lo..hi]` stays where it is in `s + t`. */
  lemma WhitespaceInLeft(s: string, t: string, lo: int, hi: int)
    requires 0 <= lo <= hi <= |s|
    requires forall m :: lo <= m < hi ==> IsWhitespace(s[m])
    ensures forall m :: lo <= m < hi ==> IsWhitespace((s + t)[m])
  {
    forall m | lo <= m < hi ensures IsWhitespace((s + t)[m]) {
      assert (s + t)[m] == s[m];
    }
  }

  /** Whitespace in `t[lo..hi]` moves right by `|s|` in `s + t`. */
  lemma WhitespaceInRight(s: string, t: string, lo: int, hi: int)
    requires 0 <= lo <= hi <= |t|
    requires forall m :: lo <= m < hi ==> IsWhitespace(t[m])
    ensures forall m :: |s| + lo <= m < |s| + hi ==> IsWhitespace((s + t)[m])
  {
    forall m | |s| + lo <= m < |s| + hi ensures IsWhitespace((s + t)[m]) {
      assert (s + t)[m] == t[m - |s|];
    }
  }

  /** Two blank strings make a blank one. */
  lemma BlankConcat(s: string, t: string)
    requires IsBlank(s) && IsBlank(t)
    ensures IsBlank(s + t)
  {
    WhitespaceInLeft(s, t, 0, |s|);
    WhitespaceInRight(s, t, 0, |t|);
  }

  /** A slice of the second part of a concatenation, located in the whole. */
  lemma SliceOfRight(a: string, s: string, i: int, j: int)
    requires 0 <= i <= j <= |s|
    ensures (a + s)[|a| + i..|a| + j] == s[i..j]
  {
    assert forall k :: 0 <= k < j - i ==> (a + s)[|a| + i..|a| + j][k] == s[i..j][k];
  }

  /** A slice of the first part of a concatenation, located in the whole. */
  lemma SliceOfLeft(s: string, b: string, i: int, j: int)
    requires 0 <= i <= j <= |s|
    ensures (s + b)[i..j] == s[i..j]
  {
    assert forall k :: 0 <= k < j - i ==> (s + b)[i..j][k] == s[i..j][k];
  }

  /** Trimming bounds of `s` moved right by `|a|` are trimming bounds of `a + s`, when `a` is blank. */
  lemma TrimmedAtBlankPrefix(a: string, s: string, i: int, j: int)
    requires IsBlank(a) && TrimmedAt(s, i, j) && i < j
    ensures TrimmedAt(a + s, |a| + i, |a| + j)
  {
    WhitespaceInLeft(a, s, 0, |a|);
    WhitespaceInRight(a, s, 0, i);
    WhitespaceInRight(a, s, j, |s|);
    assert (a + s)[|a| + i] == s[i];
    assert (a + s)[|a| + j - 1] == s[j - 1];
  }

  /** Trimming bounds of `s` are trimming bounds of `s + b`, when `b` is blank. */
  lemma TrimmedAtBlankSuffix(s: string, b: string, i: int, j: int)
    requires IsBlank(b) && TrimmedAt(s, i, j) && i < j
    ensures TrimmedAt(s + b, i, j)
  {
    WhitespaceInLeft(s, b, 0, i);
    WhitespaceInLeft(s, b, j, |s|);
    WhitespaceInRight(s, b, 0, |b|);
    assert (s + b)[i] == s[i];
    assert (s + b)[j - 1] == s[j - 1];
  }

  /** Whitespace put before a string is dropped again by `trim()`. */
  lemma TrimBlankPrefix(a: string, s: string)
    requires IsBlank(a)
    ensures Trim(a + s) == Trim(s)
  {
    var i, j := TrimStart(s), TrimEnd(s);
    BlankIffTrimEmpty(s);
    if i < j {
      TrimmedAtBlankPrefix(a, s, i, j);
      TrimUnique(a + s, |a| + i, |a| + j);
      SliceOfRight(a, s, i, j);
    } else {
      BlankConcat(a, s);
      BlankIffTrimEmpty(a + s);
    }
  }

  /** Whitespace put after a string is dropped again by `trim()`. */
  lemma TrimBlankSuffix(s: string, b: string)
    requires IsBlank(b)
    ensures Trim(s + b) == Trim(s)
  {
    var i, j := TrimStart(s), TrimEnd(s);
    BlankIffTrimEmpty(s);
    if i < j {
      TrimmedAtBlankSuffix(s, b, i, j);
      TrimUnique(s + b, i, j);
      SliceOfLeft(s, b, i, j);
    } else {
      BlankConcat(s, b);
      BlankIffTrimEmpty(s + b);
    }
  }

  /** Whitespace added around a string is dropped again by `trim()`. */
  lemma TrimSurrounding(a: string, s: string, b: string)
    requires IsBlank(a) && IsBlank(b)
    ensures Trim(a + s + b) == Trim(s)
  {
    assert a + s + b == a + (s + b);
    TrimBlankPrefix(a, s + b);
    TrimBlankSuffix(s, b);
  }

  /** A string of the same length with whitespace at the same places trims at the same bounds. */
  lemma TrimSameShape(s: string, l: string)
    requires |l| == |s|
    requires forall m :: 0 <= m < |s| ==> (IsWhitespace(l[m]) <==> IsWhitespace(s[m]))
    ensures Trim(l) == l[TrimStart(s)..TrimEnd(s)]
  {
    var i, j := TrimStart(s), TrimEnd(s);
    assert TrimmedAt(l, i, j);
    TrimUnique(l, i, j);
  }

  /** Lower-casing a slice is slicing the lower-cased string. */
  lemma LowerSSlice(s: string, i: int, j: int)
    requires 0 <= i <= j <= |s|
    ensures LowerS(s)[i..j] == LowerS(s[i..j])
  {
    assert forall k :: 0 <= k < j - i ==> LowerS(s)[i..j][k] == LowerS(s[i..j])[k];
  }

  /** A character map that keeps whitespace exactly commutes with `trim()`; `lowercase()` is one. */
  lemma TrimLowerCommute(s: string)
    ensures Trim(LowerS(s)) == LowerS(Trim(s))
  {
    TrimSameShape(s, LowerS(s));
    LowerSSlice(s, TrimStart(s), TrimEnd(s));
  }

  /** `isNullOrBlank()` on a `String?`. */
  predicate IsNullOrBlank(o: Option<string>) {
    o.None? || IsBlank(o.value)
  }

  /** `s.ifBlank { null }`. */
  function IfBlankNull(s: string): (r: Option<string>)
    ensures r.None? <==> IsBlank(s)
    ensures r.Some? ==> r.value == s
  {
    if IsBlank(s) then None else Some(s)
  }

  /** `o?.trim()`. */
  function TrimOpt(o: Option<string>): (r: Option<string>)
    ensures r.None? <==> o.None?
    ensures o.Some? ==> r.value == Trim(o.value)
  {
    if o.Some? then Some(Trim(o.value)) else None
  }

  /** `o ?: ""` and `o.orEmpty()`. */
  function OrEmpty(o: Option<string>): string {
    if o.Some? then o.value else ""
  }

  // ---------------------------------------------------------------------------
  // indexOf / contains, with and without ignoreCase
  // ---------------------------------------------------------------------------

  /** Equality of two strings when case is ignored (character-wise under `Lower`). */
  predicate EqualsIgnoreCase(a: string, b: string) {
    |a| == |b| && forall k :: 0 <= k < |a| ==> Lower(a[k]) == Lower(b[k])
  }

  /** `target.regionMatches(0, text, i, target.length, ignoreCase)`. */
  predicate MatchesAt(text: string, target: string, i: int, ignoreCase: bool) {
    && 0 <= i <= |text| - |target|
    && (if ignoreCase then EqualsIgnoreCase(text[i..i + |target|], target)
        else text[i..i + |target|] == target)
  }

  /** `i` is the smallest index at which `target` occurs in `text`. */
  predicate IsFirstMatch(text: string, target: string, i: int, ignoreCase: bool) {
    MatchesAt(text, target, i, ignoreCase) && forall j :: 0 <= j < i ==> !MatchesAt(text, target, j, ignoreCase)
  }

  function FirstMatchFrom(text: string, target: string, i: nat, ignoreCase: bool): (r: int)
    ensures r == -1 || (i <= r && MatchesAt(text, target, r, ignoreCase))
    ensures r == -1 ==> forall j :: i <= j ==> !MatchesAt(text, target, j, ignoreCase)
    ensures r >= 0 ==> forall j :: i <= j < r ==> !MatchesAt(text, target, j, ignoreCase)
    decreases |text| - i
  {
    if i > |text| - |target| then -1
    else if MatchesAt(text, target, i, ignoreCase) then i
    else FirstMatchFrom(text, target, i + 1, ignoreCase)
  }

  /** `text.indexOf(target, ignoreCase = ...)`: the first index of a match, or -1. */
  function IndexOf(text: string, target: string, ignoreCase: bool): (r: int)
    ensures r == -1 || IsFirstMatch(text, target, r, ignoreCase)
    ensures r == -1 <==> forall j :: !MatchesAt(text, target, j, ignoreCase)
  {
    FirstMatchFrom(text, target, 0, ignoreCase)
  }

  /** `text.contains(target, ignoreCase = ...)`. */
  predicate Contains(text: string, target: string, ignoreCase: bool) {
    IndexOf(text, target, ignoreCase) >= 0
  }

  /** A contained target has a first occurrence. */
  lemma ContainsFirstMatch(text: string, target: string, ignoreCase: bool)
    requires Contains(text, target, ignoreCase)
    ensures exists i {:trigger IsFirstMatch(text, target, i, ignoreCase)} :: IsFirstMatch(text, target, i, ignoreCase)
  {
    assert IsFirstMatch(text, target, IndexOf(text, target, ignoreCase), ignoreCase);
  }

  /** An exact occurrence is also a case-insensitive one. */
  lemma ContainsImpliesIgnoreCase(text: string, target: string)
    requires Contains(text, target, false)
    ensures Contains(text, target, true)
  {
    var i := IndexOf(text, target, false);
    assert MatchesAt(text, target, i, true);
  }

  // ---------------------------------------------------------------------------
  // replace(oldValue, newValue), case-sensitive
  // ---------------------------------------------------------------------------

  /**
   * `String.replace(oldValue, newValue)`: every occurrence, left to right and
   * without overlap; an empty `oldValue` puts `newValue` around every character.
   */
  function ReplaceAll(s: string, target: string, replacement: string): (r: string)
    decreases |s|
  {
    if target == [] then
      if s == [] then replacement else replacement + [s[0]] + ReplaceAll(s[1..], target, replacement)
    else if |target| <= |s| && s[..|target|] == target then
      replacement + ReplaceAll(s[|target|..], target, replacement)
    else if s == [] then []
    else [s[0]] + ReplaceAll(s[1..], target, replacement)
  }

  /** Matches in `s[1..]` are the matches in `s` shifted by one. */
  lemma MatchesShift(s: string, target: string, j: int, ignoreCase: bool)
    requires s != [] && j >= 0
    ensures MatchesAt(s[1..], target, j, ignoreCase) <==> MatchesAt(s, target, j + 1, ignoreCase)
  {
    if 0 <= j <= |s| - 1 - |target| {
      assert s[1..][j..j + |target|] == s[j + 1..j + 1 + |target|];
    }
  }

  lemma FirstMatchShift(s: string, target: string, i: nat)
    requires i > 0 && IsFirstMatch(s, target, i, false)
    ensures IsFirstMatch(s[1..], target, i - 1, false)
  {
    MatchesShift(s, target, i - 1, false);
    forall j | 0 <= j < i - 1 ensures !MatchesAt(s[1..], target, j, false) {
      MatchesShift(s, target, j, false);
    }
  }

  /** Where no occurrence starts at 0, `replace` copies the first character and goes on. */
  lemma ReplaceAllStep(s: string, target: string, replacement: string)
    requires target != [] && s != []
    requires !MatchesAt(s, target, 0, false)
    ensures ReplaceAll(s, target, replacement) == [s[0]] + ReplaceAll(s[1..], target, replacement)
  {
    assert |target| <= |s| ==> s[..|target|] == s[0..0 + |target|];
  }

  /** An occurrence at 0 is replaced and `replace` goes on after it. */
  lemma ReplaceAllAtStart(s: string, target: string, replacement: string)
    requires target != []
    requires MatchesAt(s, target, 0, false)
    ensures ReplaceAll(s, target, replacement) == replacement + ReplaceAll(s[|target|..], target, replacement)
  {
    assert s[..|target|] == s[0..0 + |target|];
  }

  /** Without an occurrence of a non-empty target, `replace` returns the text unchanged. */
  lemma {:induction false} ReplaceAllNoMatch(s: string, target: string, replacement: string)
    requires target != []
    requires forall j :: !MatchesAt(s, target, j, false)
    ensures ReplaceAll(s, target, replacement) == s
    decreases |s|
  {
    if s != [] {
      ReplaceAllStep(s, target, replacement);
      forall j ensures !MatchesAt(s[1..], target, j, false) {
        if j >= 0 { MatchesShift(s, target, j, false); }
      }
      ReplaceAllNoMatch(s[1..], target, replacement);
      assert [s[0]] + s[1..] == s;
    }
  }

  /** `replace` keeps the text before the first occurrence, puts the replacement there and goes on after it. */
  lemma {:induction false} ReplaceAllFirst(s: string, target: string, replacement: string, i: nat)
    requires target != []
    requires IsFirstMatch(s, target, i, false)
    ensures ReplaceAll(s, target, replacement)
         == s[..i] + replacement + ReplaceAll(s[i + |target|..], target, replacement)
    decreases i
  {
    if i == 0 {
      ReplaceAllAtStart(s, target, replacement);
      var rest := ReplaceAll(s[|target|..], target, replacement);
      assert s[..i] + replacement + rest == replacement + rest by { assert s[..i] == []; }
    } else {
      var t := s[1..];
      FirstMatchShift(s, target, i);
      ReplaceAllFirst(t, target, replacement, i - 1);
      assert t[i - 1 + |target|..] == s[i + |target|..];
      ReplaceAllCons(s, target, replacement, i, ReplaceAll(s[i + |target|..], target, replacement));
    }
  }

  lemma ReplaceAllCons(s: string, target: string, replacement: string, i: nat, rest: string)
    requires target != [] && 0 < i <= |s|
    requires !MatchesAt(s, target, 0, false)
    requires ReplaceAll(s[1..], target, replacement) == s[1..][..i - 1] + replacement + rest
    ensures ReplaceAll(s, target, replacement) == s[..i] + replacement + rest
  {
    ReplaceAllStep(s, target, replacement);
    assert [s[0]] + s[1..][..i - 1] == s[..i];
  }

  // ---------------------------------------------------------------------------
  // Int.toString
  // ---------------------------------------------------------------------------

  predicate IsDigit(c: char) {
    '0' <= c <= '9'
  }

  function DigitChar(d: nat): (c: char)
    requires d < 10
    ensures IsDigit(c)
  {
    ('0' as int + d) as char
  }

  /** Decimal notation of a natural number, without leading zeros. */
  function NatToString(n: nat): (r: string)
    ensures |r| >= 1
    ensures forall k :: 0 <= k < |r| ==> IsDigit(r[k])
    ensures n >= 10 <==> |r| >= 2
    decreases n
  {
    if n < 10 then [DigitChar(n)] else NatToString(n / 10) + [DigitChar(n % 10)]
  }

  /** `Int.toString()`: a minus sign in front of negative numbers. */
  function IntToString(i: int): string {
    if i < 0 then "-" + NatToString(-i) else NatToString(i)
  }

  /** Distinct numbers have distinct decimal notations. */
  lemma {:induction false} NatToStringInjective(a: nat, b: nat)
    requires NatToString(a) == NatToString(b)
    ensures a == b
    decreases a
  {
    if a >= 10 {
      var sa, sb := NatToString(a), NatToString(b);
      assert sa[..|sa| - 1] == NatToString(a / 10);
      assert sb[..|sb| - 1] == NatToString(b / 10);
      NatToStringInjective(a / 10, b / 10);
      assert DigitChar(a % 10) == sa[|sa| - 1] == DigitChar(b % 10);
    }
  }

  // ---------------------------------------------------------------------------
  // String.toIntOrNull
  // ---------------------------------------------------------------------------

  const MinInt: int := -0x8000_0000
  const MaxInt: int := 0x7fff_ffff

  function DigitValue(c: char): (d: nat)
    requires IsDigit(c)
    ensures d < 10 && DigitChar(d) == c
  {
    c as int - '0' as int
  }

  predicate AllDigits(s: string) {
    forall k :: 0 <= k < |s| ==> IsDigit(s[k])
  }

  /** The number a run of decimal digits denotes (leading zeros allowed). */
  function DigitsValue(s: string): nat
    requires AllDigits(s)
    decreases |s|
  {
    if s == [] then 0 else DigitsValue(s[..|s| - 1]) * 10 + DigitValue(s[|s| - 1])
  }

  /**
   * `String.toIntOrNull()`: an optional '+' or '-', then at least one decimal digit, and
   * a value that fits a 32-bit `Int`; anything else (spaces included) is null.
   */
  function ParseInt(s: string): (r: Option<int>)
    ensures r.Some? ==> MinInt <= r.value <= MaxInt
    ensures r.Some? ==> s != [] && forall k :: 0 < k < |s| ==> IsDigit(s[k])
    ensures r.Some? ==> IsDigit(s[0]) || (|s| >= 2 && (s[0] == '-' || s[0] == '+'))
    ensures r.Some? && r.value < 0 ==> s[0] == '-'
    ensures s == [] || s == "-" || s == "+" ==> r.None?
  {
    if s == [] then None
    else if s[0] == '-' || s[0] == '+' then
      if |s| == 1 || !AllDigits(s[1..]) then None
      else
        assert forall k :: 0 < k < |s| ==> s[k] == s[1..][k - 1];
        var n: int := DigitsValue(s[1..]);
        var v := if s[0] == '-' then -n else n;
        if MinInt <= v <= MaxInt then Some(v) else None
    else if !AllDigits(s) then None
    else
      var v := DigitsValue(s);
      if v <= MaxInt then Some(v) else None
  }

  lemma DigitsSnoc(s: string, c: char)
    requires AllDigits(s) && IsDigit(c)
    ensures AllDigits(s + [c]) && DigitsValue(s + [c]) == DigitsValue(s) * 10 + DigitValue(c)
  {
    assert (s + [c])[..|s|] == s;
  }

  /** Reading back a decimal notation gives the number. */
  lemma {:induction false} DigitsValueOfNatToString(n: nat)
    ensures AllDigits(NatToString(n)) && DigitsValue(NatToString(n)) == n
    decreases n
  {
    var s := NatToString(n);
    if n >= 10 {
      DigitsValueOfNatToString(n / 10);
      assert s[..|s| - 1] == NatToString(n / 10);
      assert DigitValue(s[|s| - 1]) == n % 10 by {
        assert s[|s| - 1] == DigitChar(n % 10);
      }
    } else {
      assert s[..0] == [];
      assert DigitValue(DigitChar(n)) == n;
    }
  }

  /** A minus sign and digits denoting at most 2^31 read as the negated value. */
  lemma ParseIntNegative(s: string)
    requires |s| >= 2 && s[0] == '-' && AllDigits(s[1..]) && DigitsValue(s[1..]) <= -MinInt
    ensures ParseInt(s) == Some(-(DigitsValue(s[1..]) as int))
  {
  }

  /** Digits denoting at most 2^31 - 1 read as their value. */
  lemma ParseIntDigits(s: string)
    requires s != [] && AllDigits(s) && DigitsValue(s) <= MaxInt
    ensures ParseInt(s) == Some(DigitsValue(s))
  {
    assert IsDigit(s[0]);
  }

  /** `toIntOrNull` reads back what `toString` writes, for every 32-bit value. */
  lemma ParseIntOfIntToString(i: int)
    requires MinInt <= i <= MaxInt
    ensures ParseInt(IntToString(i)) == Some(i)
  {
    var s := IntToString(i);
    if i < 0 {
      DigitsValueOfNatToString(-i);
      assert s[1..] == NatToString(-i);
      ParseIntNegative(s);
    } else {
      DigitsValueOfNatToString(i);
      ParseIntDigits(s);
    }
  }

  /** Inputs the settings form refuses: blank, signs alone, spaces, fractions, and values past 32 bits. */
  lemma ParseIntExamples()
    ensures ParseInt("") == None && ParseInt("-") == None
    ensures ParseInt(" 1") == None && ParseInt("1.5") == None
    ensures ParseInt("+7") == Some(7) && ParseInt("-0") == Some(0)
  {
    assert !IsDigit(" 1"[0]);
    assert !AllDigits("1.5") by { assert !IsDigit("1.5"[1]); }
    assert "+7"[1..] == "7" && "7"[..0] == "";
    assert "-0"[1..] == "0" && "0"[..0] == "";
  }

  /** The first five digits of 2^31. */
  lemma DigitsValueHighHalf()
    ensures AllDigits("21474") && DigitsValue("21474") == 21474
  {
    DigitsSnoc("", '2');
    assert "" + ['2'] == "2";
    DigitsSnoc("2", '1');
    assert "2" + ['1'] == "21";
    DigitsSnoc("21", '4');
    assert "21" + ['4'] == "214";
    DigitsSnoc("214", '7');
    assert "214" + ['7'] == "2147";
    DigitsSnoc("2147", '4');
    assert "2147" + ['4'] == "21474";
  }

  /** One past the largest `Int` is refused. */
  lemma ParseIntOverflow()
    ensures ParseInt("2147483648") == None
  {
    var big := "2147483648";
    DigitsValueHighHalf();
    DigitsSnoc("21474", '8');
    assert "21474" + ['8'] == "214748";
    DigitsSnoc("214748", '3');
    assert "214748" + ['3'] == "2147483";
    DigitsSnoc("2147483", '6');
    assert "2147483" + ['6'] == "21474836";
    DigitsSnoc("21474836", '4');
    assert "21474836" + ['4'] == "214748364";
    DigitsSnoc("214748364", '8');
    assert "214748364" + ['8'] == "2147483648";
    assert DigitsValue(big) == 2147483648;
  }
}
