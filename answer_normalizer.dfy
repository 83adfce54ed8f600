/** How a typed answer is compared with the expected one. */
module AnswerNormalizer {
  import opened Text

  /** Positions `i` and `i + 1` of `s` both hold regex spaces. */
  ghost predicate SpacePairAt(s: string, i: int) {
    0 <= i && i + 1 < |s| && IsRegexSpace(s[i]) && IsRegexSpace(s[i + 1])
  }

  /** No two neighbouring regex spaces, and every regex space is a plain ' '. */
  ghost predicate Collapsed(s: string) {
    && (forall k :: 0 <= k < |s| && IsRegexSpace(s[k]) ==> s[k] == ' ')
    && (forall i :: !SpacePairAt(s, i))
  }

  /** The end of the run of regex spaces that starts at `i`. */
  function SkipRegexSpaces(s: string, i: nat): (k: nat)
    requires i <= |s|
    ensures i <= k <= |s|
    ensures k < |s| ==> !IsRegexSpace(s[k])
    decreases |s| - i
  {
    if i < |s| && IsRegexSpace(s[i]) then SkipRegexSpaces(s, i + 1) else i
  }

  /** Everything the run skips is a regex space. */
  lemma {:induction false} SkipRegexSpacesSkipsSpaces(s: string, i: nat)
    requires i <= |s|
    ensures forall m :: i <= m < SkipRegexSpaces(s, i) ==> IsRegexSpace(s[m])
    decreases |s| - i
  {
    if i < |s| && IsRegexSpace(s[i]) {
      SkipRegexSpacesSkipsSpaces(s, i + 1);
    }
  }

  /** The run that starts at `i` ends at `k` when all of `s[i..k]` is space and `s[k]` is not. */
  lemma SkipRegexSpacesAt(s: string, i: nat, k: nat)
    requires i <= k <= |s|
    requires forall m :: i <= m < k ==> IsRegexSpace(s[m])
    requires k < |s| ==> !IsRegexSpace(s[k])
    ensures SkipRegexSpaces(s, i) == k
  {
    var j := SkipRegexSpaces(s, i);
    SkipRegexSpacesSkipsSpaces(s, i);
    assert j < |s| ==> !IsRegexSpace(s[j]);
    assert j >= k;
  }

  /** How much one step of the regex replacement consumes: a whole run of spaces, or one character. */
  function Step(s: string): (k: nat)
    requires s != []
    ensures 1 <= k <= |s|
    ensures !IsRegexSpace(s[0]) ==> k == 1
    ensures IsRegexSpace(s[0]) && k < |s| ==> !IsRegexSpace(s[k])
  {
    if IsRegexSpace(s[0]) then SkipRegexSpaces(s, 0) else 1
  }

  /** What one step writes: ' ' for a run of spaces, otherwise the character itself. */
  function Emit(c: char): (r: char)
    ensures IsRegexSpace(r) <==> IsRegexSpace(c)
    ensures !IsRegexSpace(c) ==> r == c
  {
    if IsRegexSpace(c) then ' ' else c
  }

  /**
   * `replace(Regex("\\s+"), " ")`: every maximal run of regex spaces becomes one ' ';
   * the other characters are copied, and the first character keeps its class.
   */
  function CollapseWs(s: string): (r: string)
    ensures |r| == 0 <==> |s| == 0
    ensures |r| > 0 ==> r[0] == Emit(s[0])
    decreases |s|
  {
    if s == [] then [] else [Emit(s[0])] + CollapseWs(s[Step(s)..])
  }

  /** The result of collapsing has no two neighbouring spaces, and only ' ' as space. */
  lemma {:induction false} CollapseWsCollapsed(s: string)
    ensures Collapsed(CollapseWs(s))
    decreases |s|
  {
    if s != [] {
      var t := s[Step(s)..];
      CollapseWsCollapsed(t);
      var r, rest := CollapseWs(s), CollapseWs(t);
      assert r == [Emit(s[0])] + rest;
      assert IsRegexSpace(s[0]) && rest != [] ==> !IsRegexSpace(rest[0]);
      forall i ensures !SpacePairAt(r, i) {
        if 0 < i && i + 1 < |r| { assert r[i] == rest[i - 1] && r[i + 1] == rest[i]; assert !SpacePairAt(rest, i - 1); }
      }
    }
  }

  /** Collapsing never lengthens the text. */
  lemma {:induction false} CollapseWsShorter(s: string)
    ensures |CollapseWs(s)| <= |s|
    decreases |s|
  {
    if s != [] {
      CollapseWsShorter(s[Step(s)..]);
    }
  }

  /** Collapsing only writes ' ' or copies a character of the input. */
  lemma {:induction false} CollapseWsChars(s: string)
    ensures forall k :: 0 <= k < |CollapseWs(s)| ==> CollapseWs(s)[k] == ' ' || CollapseWs(s)[k] in s
    decreases |s|
  {
    if s != [] {
      var t := s[Step(s)..];
      CollapseWsChars(t);
      assert forall c :: c in t ==> c in s;
      var r, rest := CollapseWs(s), CollapseWs(t);
      assert r == [Emit(s[0])] + rest;
      forall k | 0 < k < |r| ensures r[k] == ' ' || r[k] in s {
        assert r[k] == rest[k - 1];
      }
    }
  }

  /** The last character keeps its class too. */
  lemma {:induction false} CollapseWsLast(s: string)
    ensures var r := CollapseWs(s); s != [] ==> r[|r| - 1] == Emit(s[|s| - 1])
    decreases |s|
  {
    if s != [] {
      var t := s[Step(s)..];
      CollapseWsLast(t);
      var r, rest := CollapseWs(s), CollapseWs(t);
      assert r == [Emit(s[0])] + rest;
      if t != [] {
        assert t[|t| - 1] == s[|s| - 1];
        assert r[|r| - 1] == rest[|rest| - 1];
      } else {
        assert Step(s) == |s|;
        SkipRegexSpacesSkipsSpaces(s, 0);
        assert IsRegexSpace(s[0]) ==> IsRegexSpace(s[|s| - 1]);
      }
    }
  }

  /** A collapsed string is left as it is. */
  lemma {:induction false} CollapseWsFixed(s: string)
    requires Collapsed(s)
    ensures CollapseWs(s) == s
    decreases |s|
  {
    if s != [] {
      assert Step(s) == 1 by {
        if IsRegexSpace(s[0]) {
          assert !SpacePairAt(s, 0);
          SkipRegexSpacesAt(s, 0, 1);
        }
      }
      assert Collapsed(s[1..]) by {
        forall i ensures !SpacePairAt(s[1..], i) {
          assert !SpacePairAt(s, i + 1);
        }
      }
      CollapseWsFixed(s[1..]);
      assert [Emit(s[0])] + s[1..] == s;
    }
  }

  /** A run of spaces between two non-space ends becomes exactly one ' ', whatever its length. */
  lemma CollapseWsRun(x: string, w: string, y: string)
    requires w != [] && forall k :: 0 <= k < |w| ==> IsRegexSpace(w[k])
    requires x != [] ==> !IsRegexSpace(x[|x| - 1])
    requires y != [] ==> !IsRegexSpace(y[0])
    ensures CollapseWs(x + w + y) == CollapseWs(x) + " " + CollapseWs(y)
  {
    AppendAssoc(x, w, y);
    CollapseWsAppend(x, w + y);
    CollapseWsRunStart(w, y);
    AppendAssoc(CollapseWs(x), " ", CollapseWs(y));
  }

  /** No run crosses the end of a prefix that ends with a non-space, so collapsing splits there. */
  lemma {:induction false} CollapseWsAppend(x: string, z: string)
    requires x != [] ==> !IsRegexSpace(x[|x| - 1])
    ensures CollapseWs(x + z) == CollapseWs(x) + CollapseWs(z)
    decreases |x|
  {
    if x == [] {
      assert x + z == z;
    } else {
      var k := Step(x);
      StepPrefix(x, z);
      assert x[k..] != [] ==> x[k..][|x[k..]| - 1] == x[|x| - 1];
      CollapseWsAppend(x[k..], z);
      DropAppend(x, z, k);
      CollapseWsAppendStep(x, z, k, CollapseWs(x[k..]), CollapseWs(z));
    }
  }

  lemma CollapseWsAppendStep(x: string, z: string, k: nat, mid: string, tail: string)
    requires x != [] && k == Step(x) && Step(x + z) == k
    requires (x + z)[k..] == x[k..] + z
    requires CollapseWs(x[k..]) == mid
    requires CollapseWs(x[k..] + z) == mid + tail
    ensures CollapseWs(x + z) == CollapseWs(x) + tail
  {
    CollapseWsCons(x + z, k, mid + tail);
    CollapseWsCons(x, k, mid);
  }

  /** The case of `CollapseWsRun` where the run comes first. */
  lemma CollapseWsRunStart(w: string, y: string)
    requires w != [] && forall k :: 0 <= k < |w| ==> IsRegexSpace(w[k])
    requires y != [] ==> !IsRegexSpace(y[0])
    ensures CollapseWs(w + y) == " " + CollapseWs(y)
  {
    var s := w + y;
    assert forall m :: 0 <= m < |w| ==> IsRegexSpace(s[m]);
    assert |w| < |s| ==> s[|w|] == y[0];
    SkipRegexSpacesAt(s, 0, |w|);
    assert s[|w|..] == y;
  }

  /** A step inside a prefix that ends with a non-space is the same step on the whole text. */
  lemma StepPrefix(x: string, z: string)
    requires x != [] && !IsRegexSpace(x[|x| - 1])
    ensures Step(x) < |x| || !IsRegexSpace(x[0])
    ensures Step(x + z) == Step(x)
  {
    var s := x + z;
    var k := Step(x);
    if IsRegexSpace(x[0]) {
      SkipRegexSpacesSkipsSpaces(x, 0);
      var last := |x| - 1;
      assert !IsRegexSpace(x[last]);
      assert k < |x|;
      assert forall m :: 0 <= m < |x| ==> s[m] == x[m];
      SkipRegexSpacesAt(s, 0, k);
    }
  }

  /** Unfolding one step of the collapse, from a known step length and remainder. */
  lemma CollapseWsCons(s: string, k: nat, rest: string)
    requires s != [] && Step(s) == k
    requires CollapseWs(s[k..]) == rest
    ensures CollapseWs(s) == [Emit(s[0])] + rest
  {
  }

  /** A character the normalised form may contain besides ' ': lower-case already, and never 'ё'. */
  predicate NormalChar(c: char) {
    Lower(c) == c && c != 'ё'
  }

  /** One character through the lower-casing and ё→е steps. */
  function FoldChar(c: char): (r: char)
    ensures NormalChar(r)
    ensures IsWhitespace(r) <==> IsWhitespace(c)
    ensures IsRegexSpace(r) <==> IsRegexSpace(c)
  {
    LowerIdempotent(c);
    if Lower(c) == 'ё' then 'е' else Lower(c)
  }

  /** The lower-casing and ё→е steps, before the runs are collapsed. */
  function Fold(s: string): (r: string)
    ensures |r| == |s|
    ensures forall k :: 0 <= k < |r| ==> r[k] == FoldChar(s[k])
  {
    ReplaceChar(LowerS(s), 'ё', 'е')
  }

  /** Folding works character by character, so it distributes over concatenation. */
  lemma FoldAppend(a: string, b: string)
    ensures Fold(a + b) == Fold(a) + Fold(b)
  {
    assert forall k :: 0 <= k < |a + b| ==> Fold(a + b)[k] == (Fold(a) + Fold(b))[k];
  }

  /** `normalize`: trim, lower-case, ё→е, then every run of `\s` to a single space. */
  function Normalize(s: string): (r: string)
    ensures Collapsed(r)
    ensures forall k :: 0 <= k < |r| ==> r[k] == ' ' || NormalChar(r[k])
    ensures |r| > 0 ==> !IsWhitespace(r[0]) && !IsWhitespace(r[|r| - 1])
    ensures 'ё' !in r
    ensures |r| <= |s|
  {
    var f := Fold(Trim(s));
    assert |f| > 0 ==> FoldChar(Trim(s)[0]) == f[0] && FoldChar(Trim(s)[|f| - 1]) == f[|f| - 1];
    CollapseWsCollapsed(f);
    CollapseWsShorter(f);
    CollapseWsChars(f);
    CollapseWsKeepsEnds(f);
    CollapseWs(f)
  }

  /** A text that neither starts nor ends with whitespace collapses to one that does not either. */
  lemma CollapseWsKeepsEnds(f: string)
    requires |f| > 0 ==> !IsWhitespace(f[0]) && !IsWhitespace(f[|f| - 1])
    ensures var r := CollapseWs(f); |r| > 0 ==> !IsWhitespace(r[0]) && !IsWhitespace(r[|r| - 1])
  {
    CollapseWsLast(f);
  }

  /** `isCorrect`: the two answers have the same normalised form. */
  predicate IsCorrect(userAnswer: string, correctAnswer: string) {
    Normalize(userAnswer) == Normalize(correctAnswer)
  }

  /** Normalising twice is normalising once. */
  lemma NormalizeIdempotent(s: string)
    ensures Normalize(Normalize(s)) == Normalize(s)
  {
    var n := Normalize(s);
    TrimNoop(n);
    assert Fold(n) == n;
    CollapseWsFixed(n);
  }

  /** `isCorrect` is an equivalence: reflexive, symmetric and transitive. */
  lemma IsCorrectEquivalence(a: string, b: string, c: string)
    ensures IsCorrect(a, a)
    ensures IsCorrect(a, b) ==> IsCorrect(b, a)
    ensures IsCorrect(a, b) && IsCorrect(b, c) ==> IsCorrect(a, c)
  {
  }

  /** Whitespace around an answer does not matter. */
  lemma IgnoresSurroundingWhitespace(a: string, s: string, b: string)
    requires IsBlank(a) && IsBlank(b)
    ensures IsCorrect(a + s + b, s)
  {
    TrimSurrounding(a, s, b);
  }

  /** Neither does case. */
  lemma IgnoresCase(s: string)
    ensures IsCorrect(LowerS(s), s)
  {
    TrimLowerCommute(s);
    var t := Trim(s);
    assert Fold(LowerS(t)) == Fold(t) by {
      forall k | 0 <= k < |t| ensures Fold(LowerS(t))[k] == Fold(t)[k] {
        LowerIdempotent(t[k]);
      }
    }
  }

  /** Replacing characters in a slice is slicing the replaced string. */
  lemma ReplaceCharSlice(s: string, from: char, to: char, i: int, j: int)
    requires 0 <= i <= j <= |s|
    ensures ReplaceChar(s, from, to)[i..j] == ReplaceChar(s[i..j], from, to)
  {
    assert forall k :: 0 <= k < j - i ==> ReplaceChar(s, from, to)[i..j][k] == ReplaceChar(s[i..j], from, to)[k];
  }

  /** A replacement of one non-whitespace character by another commutes with `trim()`. */
  lemma TrimReplaceCharCommute(s: string, from: char, to: char)
    requires !IsWhitespace(from) && !IsWhitespace(to)
    ensures Trim(ReplaceChar(s, from, to)) == ReplaceChar(Trim(s), from, to)
  {
    TrimSameShape(s, ReplaceChar(s, from, to));
    ReplaceCharSlice(s, from, to, TrimStart(s), TrimEnd(s));
  }

  /** Nor does writing е for ё. */
  lemma IgnoresYo(s: string)
    ensures IsCorrect(ReplaceChar(s, 'ё', 'е'), s)
  {
    TrimReplaceCharCommute(s, 'ё', 'е');
    var t := Trim(s);
    var t' := ReplaceChar(t, 'ё', 'е');
    assert Lower('ё') == 'ё' && Lower('е') == 'е';
    assert forall k :: 0 <= k < |t| ==> Fold(t')[k] == Fold(t)[k];
    assert Fold(t') == Fold(t);
    assert Normalize(ReplaceChar(s, 'ё', 'е')) == CollapseWs(Fold(t'));
  }

  /** A string with no whitespace at either end is normalised without trimming. */
  lemma NormalizeUntrimmed(s: string)
    requires |s| > 0 ==> !IsWhitespace(s[0]) && !IsWhitespace(s[|s| - 1])
    ensures Normalize(s) == CollapseWs(Fold(s))
  {
    TrimNoop(s);
  }

  /** Folding distributes over three parts. */
  lemma FoldAppend3(a: string, w: string, b: string)
    ensures Fold(a + w + b) == Fold(a) + Fold(w) + Fold(b)
  {
    FoldAppend(a + w, b);
    FoldAppend(a, w);
  }

  /** Folding keeps a run of regex spaces one. */
  lemma FoldSpaces(w: string)
    requires forall k :: 0 <= k < |w| ==> IsRegexSpace(w[k])
    ensures forall k :: 0 <= k < |Fold(w)| ==> IsRegexSpace(Fold(w)[k])
  {
  }

  /** Folding keeps each end's class. */
  lemma FoldEnds(a: string)
    requires |a| > 0
    ensures var f := Fold(a); IsRegexSpace(f[0]) == IsRegexSpace(a[0]) && IsRegexSpace(f[|f| - 1]) == IsRegexSpace(a[|a| - 1])
  {
  }

  /**
   * Nor does the length of a run of `\s` between two parts of the answer: any such run
   * compares equal to a single space.
   */
  lemma IgnoresRunLength(a: string, w: string, b: string)
    requires |a| > 0 && |b| > 0
    requires !IsWhitespace(a[0]) && !IsWhitespace(b[|b| - 1])
    requires !IsRegexSpace(a[|a| - 1]) && !IsRegexSpace(b[0])
    requires w != [] && forall k :: 0 <= k < |w| ==> IsRegexSpace(w[k])
    ensures IsCorrect(a + w + b, a + " " + b)
  {
    NormalizeRun(a, w, b);
    assert IsRegexSpace(" "[0]);
    NormalizeRun(a, " ", b);
  }

  /** The normal form of an answer with a run of spaces inside, in terms of its two parts. */
  lemma NormalizeRun(a: string, w: string, b: string)
    requires |a| > 0 && |b| > 0
    requires !IsWhitespace(a[0]) && !IsWhitespace(b[|b| - 1])
    requires !IsRegexSpace(a[|a| - 1]) && !IsRegexSpace(b[0])
    requires w != [] && forall k :: 0 <= k < |w| ==> IsRegexSpace(w[k])
    ensures Normalize(a + w + b) == CollapseWs(Fold(a)) + " " + CollapseWs(Fold(b))
  {
    var u := a + w + b;
    assert u[0] == a[0] && u[|u| - 1] == b[|b| - 1];
    NormalizeUntrimmed(u);
    FoldCollapseRun(a, w, b);
  }

  /** The folded run between two non-space ends collapses to one ' '. */
  lemma FoldCollapseRun(a: string, w: string, b: string)
    requires |a| > 0 && |b| > 0
    requires !IsRegexSpace(a[|a| - 1]) && !IsRegexSpace(b[0])
    requires w != [] && forall k :: 0 <= k < |w| ==> IsRegexSpace(w[k])
    ensures CollapseWs(Fold(a + w + b)) == CollapseWs(Fold(a)) + " " + CollapseWs(Fold(b))
  {
    FoldAppend3(a, w, b);
    FoldEnds(a);
    FoldEnds(b);
    FoldSpaces(w);
    CollapseWsRun(Fold(a), Fold(w), Fold(b));
  }

  /** A string without regex spaces is collapsed already. */
  lemma NoSpacesCollapsed(s: string)
    requires forall k :: 0 <= k < |s| ==> !IsRegexSpace(s[k])
    ensures Collapsed(s)
  {
    forall i ensures !SpacePairAt(s, i) {
      if 0 <= i < |s| { assert !IsRegexSpace(s[i]); }
    }
  }

  /** Trailing blanks and capitals are forgiven. */
  lemma ParisExample()
    ensures IsCorrect("Paris ", "paris")
  {
    assert TrimmedAt("Paris ", 0, 5);
    TrimUnique("Paris ", 0, 5);
    TrimNoop("paris");
    assert "Paris "[0..5] == "Paris";
    assert Fold("Paris") == "paris";
    assert Fold("paris") == "paris";
    NoSpacesCollapsed("paris");
    CollapseWsFixed("paris");
  }

  /** A capital Ё is read as е. */
  lemma YoExample()
    ensures IsCorrect("пЁс", "пес")
  {
    TrimNoop("пЁс");
    TrimNoop("пес");
    assert Fold("пЁс") == "пес";
    assert Fold("пес") == "пес";
    NoSpacesCollapsed("пес");
    CollapseWsFixed("пес");
  }
}
