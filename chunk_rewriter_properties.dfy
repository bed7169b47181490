/**
 * What the chunk rewriter's replacements mean: `MatchEnd` finds exactly the greedy matches of
 * `kw\s+\d+`, `ReplaceFirst` replaces the leftmost one, a replacement never disturbs the
 * other keyword's first match, and rewriting twice with non-negative values changes nothing
 * more than rewriting once.
 */
module ChunkRewritingProperties {
  import opened Wrappers
  import opened Text
  import opened ChunkRewriting

  // ---------------------------------------------------------------------------
  // The regular expression, stated directly

  /**
   * `s[i..e]` is `kw`, a run of white space ending at `b`, and a run of digits that cannot be
   * extended: the match a JavaScript regular expression `kw\s+\d+` reports at `i`.
   */
  predicate IsMatchSplit(s: string, kw: string, i: nat, b: nat, e: nat) {
    i + |kw| < b < e <= |s| && s[i..i + |kw|] == kw
    && (forall k :: i + |kw| <= k < b ==> IsJsSpace(s[k]))
    && (forall k :: b <= k < e ==> IsDigit(s[k]))
    && (e == |s| || !IsDigit(s[e]))
  }

  ghost predicate IsMatch(s: string, kw: string, i: nat, e: nat) {
    exists b: nat :: IsMatchSplit(s, kw, i, b, e)
  }

  lemma RunEndIs(s: string, i: nat, p: char -> bool, e: nat)
    requires i <= e <= |s|
    requires forall k :: i <= k < e ==> p(s[k])
    requires e == |s| || !p(s[e])
    ensures RunEnd(s, i, p) == e
  {
  }

  /** The characters of a keyword found at `i`. */
  lemma KeywordAt(s: string, kw: string, i: nat)
    requires i + |kw| <= |s| && s[i..i + |kw|] == kw
    ensures forall k :: i <= k < i + |kw| ==> s[k] == kw[k - i]
  {
    forall k | i <= k < i + |kw|
      ensures s[k] == kw[k - i]
    {
      assert s[i..i + |kw|][k - i] == s[k];
    }
  }

  /** A match starts with the keyword's first character. */
  lemma MatchStart(s: string, kw: string, i: nat)
    requires i <= |s| && |kw| > 0
    ensures MatchEnd(s, kw, i).Some? ==> i < |s| && s[i] == kw[0]
  {
    if MatchEnd(s, kw, i).Some? {
      KeywordAt(s, kw, i);
    }
  }

  /** `MatchEnd` reports a match at `i` exactly when the regular expression matches there. */
  lemma MatchEndMeaning(s: string, kw: string, i: nat, e: nat)
    requires i <= |s|
    ensures MatchEnd(s, kw, i) == Some(e) <==> IsMatch(s, kw, i, e)
  {
    if MatchEnd(s, kw, i) == Some(e) {
      var b := RunEnd(s, i + |kw|, IsJsSpace);
      assert IsMatchSplit(s, kw, i, b, e);
    }
    if IsMatch(s, kw, i, e) {
      var b: nat :| IsMatchSplit(s, kw, i, b, e);
      RunEndIs(s, i + |kw|, IsJsSpace, b);
      RunEndIs(s, b, IsDigit, e);
    }
  }

  /** The leftmost match is the one `FirstMatch` finds. */
  lemma FirstMatchIs(s: string, kw: string, i: nat, e: nat)
    requires i <= |s| && MatchEnd(s, kw, i) == Some(e)
    requires forall j :: 0 <= j < i ==> MatchEnd(s, kw, j).None?
    ensures FirstMatch(s, kw, 0) == Some((i, e))
  {
  }

  /** With a leftmost match `[i, e)`, `ReplaceFirst` puts the replacement in its place and keeps the rest. */
  lemma ReplaceFirstReplacesLeftmost(s: string, kw: string, replacement: string, i: nat, e: nat)
    requires i <= |s| && IsMatch(s, kw, i, e)
    requires forall j, f :: 0 <= j < i ==> !IsMatch(s, kw, j, f)
    ensures ReplaceFirst(s, kw, replacement) == s[..i] + replacement + s[e..]
  {
    MatchEndMeaning(s, kw, i, e);
    forall j | 0 <= j < i
      ensures MatchEnd(s, kw, j).None?
    {
      if MatchEnd(s, kw, j).Some? {
        MatchEndMeaning(s, kw, j, MatchEnd(s, kw, j).value);
      }
    }
    FirstMatchIs(s, kw, i, e);
  }

  /** Without any match, `ReplaceFirst` returns the text unchanged. */
  lemma ReplaceFirstWithoutMatch(s: string, kw: string, replacement: string)
    requires forall j, f :: 0 <= j <= |s| ==> !IsMatch(s, kw, j, f)
    ensures ReplaceFirst(s, kw, replacement) == s
  {
    if FirstMatch(s, kw, 0).Some? {
      var (i, e) := FirstMatch(s, kw, 0).value;
      MatchEndMeaning(s, kw, i, e);
    }
  }

  // ---------------------------------------------------------------------------
  // Moving matches between texts

  /** A match depends only on its own characters and the one after it. */
  lemma MatchMoves(x: string, kw: string, j: nat, b: nat, e: nat, y: string, jj: nat)
    requires IsMatchSplit(x, kw, j, b, e)
    requires jj + (e - j) <= |y| && y[jj..jj + (e - j)] == x[j..e]
    requires jj + (e - j) == |y| || !IsDigit(y[jj + (e - j)])
    ensures IsMatchSplit(y, kw, jj, jj + (b - j), jj + (e - j))
  {
    var d := jj - j;
    forall k | j <= k < e
      ensures y[k + d] == x[k]
    {
      assert y[jj..jj + (e - j)][k - j] == x[j..e][k - j];
    }
    assert y[jj..jj + |kw|] == x[j..j + |kw|] by {
      assert y[jj..jj + |kw|] == y[jj..jj + (e - j)][..|kw|];
      assert x[j..j + |kw|] == x[j..e][..|kw|];
    }
    forall k | jj + |kw| <= k < jj + (b - j)
      ensures IsJsSpace(y[k])
    {
      assert y[k] == x[k - d];
    }
    forall k | jj + (b - j) <= k < jj + (e - j)
      ensures IsDigit(y[k])
    {
      assert y[k] == x[k - d];
    }
  }

  /** The characters a keyword does not hold after its first one. */
  predicate NotInTail(c: char, kw: string) {
    forall k :: 0 < k < |kw| ==> kw[k] != c
  }

  /** A character that is neither white space, a digit nor in `kw`'s tail stops every match begun before it. */
  lemma MatchStops(x: string, kw: string, j: nat, b: nat, e: nat, i: nat)
    requires IsMatchSplit(x, kw, j, b, e)
    requires j < i < |x| && !IsJsSpace(x[i]) && !IsDigit(x[i]) && NotInTail(x[i], kw)
    ensures e <= i
  {
    KeywordAt(x, kw, j);
  }

  /**
   * Two texts that agree up to and including such a stopping character at `i` have the same
   * matches before `i`, all of which end by `i`.
   */
  lemma MatchesBefore(x: string, y: string, kw: string, i: nat, j: nat)
    requires j < i < |x| && i < |y| && x[..i + 1] == y[..i + 1]
    requires !IsJsSpace(x[i]) && !IsDigit(x[i]) && NotInTail(x[i], kw)
    ensures MatchEnd(x, kw, j) == MatchEnd(y, kw, j)
    ensures MatchEnd(x, kw, j).Some? ==> MatchEnd(x, kw, j).value <= i
  {
    assert x[i] == y[i] by {
      assert x[..i + 1][i] == y[..i + 1][i];
    }
    forall e: nat, u, v | (u, v) == (x, y) || (u, v) == (y, x)
      ensures IsMatch(u, kw, j, e) ==> IsMatch(v, kw, j, e) && e <= i
    {
      if IsMatch(u, kw, j, e) {
        var b: nat :| IsMatchSplit(u, kw, j, b, e);
        MatchStops(u, kw, j, b, e, i);
        assert v[j..e] == u[j..e] by {
          assert x[..i + 1][j..e] == x[j..e] && y[..i + 1][j..e] == y[j..e];
        }
        assert v[e] == u[e] by {
          assert x[..i + 1][e] == y[..i + 1][e];
        }
        MatchMoves(u, kw, j, b, e, v, j);
      }
    }
    if MatchEnd(x, kw, j).Some? {
      MatchEndMeaning(x, kw, j, MatchEnd(x, kw, j).value);
      MatchEndMeaning(y, kw, j, MatchEnd(x, kw, j).value);
    } else if MatchEnd(y, kw, j).Some? {
      MatchEndMeaning(y, kw, j, MatchEnd(y, kw, j).value);
      MatchEndMeaning(x, kw, j, MatchEnd(y, kw, j).value);
    }
  }

  /** Texts with the same suffix have the same matches in it, shifted by the suffix's offset. */
  lemma MatchesAfter(x: string, y: string, kw: string, j: nat, jj: nat)
    requires j <= |x| && jj <= |y| && x[j..] == y[jj..]
    ensures MatchEnd(x, kw, j).None? <==> MatchEnd(y, kw, jj).None?
    ensures MatchEnd(x, kw, j).Some? ==> MatchEnd(y, kw, jj).value == MatchEnd(x, kw, j).value - j + jj
  {
    MatchCarries(x, y, kw, j, jj);
    MatchCarries(y, x, kw, jj, j);
  }

  /** A match at `ju` in `u` is a match at `jv` in `v` when the two texts agree from there on. */
  lemma MatchCarries(u: string, v: string, kw: string, ju: nat, jv: nat)
    requires ju <= |u| && jv <= |v| && u[ju..] == v[jv..]
    ensures MatchEnd(u, kw, ju).Some? ==> MatchEnd(v, kw, jv) == Some(MatchEnd(u, kw, ju).value - ju + jv)
  {
    if MatchEnd(u, kw, ju).Some? {
      var e := MatchEnd(u, kw, ju).value;
      MatchEndMeaning(u, kw, ju, e);
      MatchShifts(u, v, kw, ju, jv, e);
      MatchEndMeaning(v, kw, jv, jv + (e - ju));
    }
  }

  lemma MatchShifts(u: string, v: string, kw: string, ju: nat, jv: nat, e: nat)
    requires ju <= |u| && jv <= |v| && u[ju..] == v[jv..] && ju <= e && IsMatch(u, kw, ju, e)
    ensures IsMatch(v, kw, jv, jv + (e - ju))
  {
    var b: nat :| IsMatchSplit(u, kw, ju, b, e);
    assert v[jv..jv + (e - ju)] == u[ju..e] by {
      assert u[ju..][..e - ju] == u[ju..e] && v[jv..][..e - ju] == v[jv..jv + (e - ju)];
    }
    if e < |u| {
      assert v[jv + (e - ju)] == u[e] by {
        assert u[ju..][e - ju] == v[jv..][e - ju];
      }
    }
    MatchMoves(u, kw, ju, b, e, v, jv);
  }

  /** No match of `kw1` starts inside a match of `kw2` when `kw1`'s first character cannot occur there. */
  lemma NoMatchInside(x: string, kw2: string, i: nat, e: nat, kw1: string, j: nat)
    requires i <= |x| && MatchEnd(x, kw2, i) == Some(e) && i <= j < e
    requires Anchored(kw1) && kw1[0] !in kw2
    ensures MatchEnd(x, kw1, j).None?
  {
    MatchEndMeaning(x, kw2, i, e);
    var b: nat :| IsMatchSplit(x, kw2, i, b, e);
    KeywordAt(x, kw2, i);
    MatchStart(x, kw1, j);
    if j < i + |kw2| {
      assert x[j] in kw2;
    }
  }

  // ---------------------------------------------------------------------------
  // Keywords and settings

  /**
   * A keyword whose first character is neither white space nor a digit and does not recur in
   * it: a match of it cannot overlap the start of another.
   */
  predicate Anchored(kw: string) {
    |kw| > 0 && !IsJsSpace(kw[0]) && !IsDigit(kw[0]) && NotInTail(kw[0], kw)
  }

  /** Two keywords neither of whose first character occurs in the other. */
  predicate Apart(kw1: string, kw2: string) {
    |kw1| > 0 && |kw2| > 0 && kw1[0] !in kw2 && kw2[0] !in kw1
  }

  lemma KeywordsAnchoredAndApart()
    ensures Anchored("STEP") && Anchored("RANGE") && Apart("STEP", "RANGE")
  {
  }

  /** A setting with a non-negative value, put in place of a match, is itself a match. */
  lemma SettingMatches(x: string, kw: string, value: int, i: nat, e: nat)
    requires i <= |x| && MatchEnd(x, kw, i) == Some(e) && value >= 0
    ensures i <= e <= |x|
    ensures var y := x[..i] + Setting(kw, value) + x[e..];
            MatchEnd(y, kw, i) == Some(i + |Setting(kw, value)|)
  {
    var setting := Setting(kw, value);
    SettingShape(kw, value);
    ReplacementMatches(x, kw, setting, i, e, x[..i] + setting + x[e..]);
  }

  /** A setting is the keyword, one space and at least one digit. */
  lemma SettingShape(kw: string, value: int)
    requires value >= 0
    ensures var t := Setting(kw, value);
            |t| > |kw| + 1 && t[..|kw|] == kw && t[|kw|] == ' ' &&
            forall k :: |kw| < k < |t| ==> IsDigit(t[k])
  {
    var t := Setting(kw, value);
    forall k | |kw| + 1 <= k < |t| ensures IsDigit(t[k]) {
      assert t[k] == IntText(value)[k - |kw| - 1];
    }
  }

  /** A replacement shaped like a match, put in place of a match, is itself a match. */
  lemma ReplacementMatches(x: string, kw: string, t: string, i: nat, e: nat, y: string)
    requires i <= |x| && MatchEnd(x, kw, i) == Some(e) && y == x[..i] + t + x[e..]
    requires |t| > |kw| + 1 && t[..|kw|] == kw && t[|kw|] == ' '
    requires forall k :: |kw| < k < |t| ==> IsDigit(t[k])
    ensures MatchEnd(y, kw, i) == Some(i + |t|)
  {
    MatchEndMeaning(x, kw, i, e);
    var b: nat :| IsMatchSplit(x, kw, i, b, e);
    var f := i + |t|;
    assert y[i..f] == t;
    assert y[f..] == x[e..];
    assert y[i..i + |kw|] == kw by {
      assert y[i..f][..|kw|] == t[..|kw|];
    }
    forall k | i + |kw| + 1 <= k < f
      ensures IsDigit(y[k])
    {
      assert y[k] == y[i..f][k - i] == t[k - i];
    }
    assert y[i + |kw|] == t[|kw|] == ' ';
    if f < |y| {
      assert y[f] == x[e] by {
        assert y[f..][0] == x[e..][0];
      }
    }
    assert IsMatchSplit(y, kw, i, i + |kw| + 1, f);
    MatchEndMeaning(y, kw, i, f);
  }

  // ---------------------------------------------------------------------------
  // One replacement

  /**
   * `y` is `x` with a setting of `kw` put in place of the `kw` match `[i, e)`; the setting is
   * itself a match, ending at `f`, and the characters around it are those of `x`.
   */
  ghost predicate Spliced(x: string, y: string, kw: string, i: nat, e: nat, f: nat) {
    i < |x| && i < |y| && MatchEnd(x, kw, i) == Some(e) && MatchEnd(y, kw, i) == Some(f)
    && |kw| > 0 && x[i] == kw[0]
    && (forall k {:trigger y[k]} :: 0 <= k <= i ==> y[k] == x[k])
    && SameTail(x, y, e, f)
  }

  /** `y` from `f` on is `x` from `e` on. */
  ghost predicate SameTail(x: string, y: string, e: nat, f: nat) {
    e <= |x| && f <= |y| && |y| - f == |x| - e
    && (forall k {:trigger y[k]} :: f <= k < |y| ==> y[k] == x[k - f + e])
  }

  lemma SplicedSetting(x: string, kw: string, value: int, i: nat, e: nat, y: string, f: nat)
    requires FirstMatch(x, kw, 0) == Some((i, e)) && value >= 0 && |kw| > 0
    requires y == ReplaceFirst(x, kw, Setting(kw, value)) && f == i + |Setting(kw, value)|
    ensures Spliced(x, y, kw, i, e, f)
    ensures y[i..f] == Setting(kw, value)
  {
    var setting := Setting(kw, value);
    ReplaceFirstAt(x, kw, setting, i, e);
    SettingShape(kw, value);
    ReplacementMatches(x, kw, setting, i, e, y);
    SplicedBy(x, kw, setting, i, e, y, f);
  }

  /** `y` is `x` with `t` put in place of the first match `[i, e)`, and `t` is itself a match. */
  lemma SplicedBy(x: string, kw: string, t: string, i: nat, e: nat, y: string, f: nat)
    requires FirstMatch(x, kw, 0) == Some((i, e)) && |kw| > 0 && |t| > 0 && t[0] == kw[0]
    requires i <= e <= |x| && y == x[..i] + t + x[e..] && f == i + |t| && MatchEnd(y, kw, i) == Some(f)
    ensures Spliced(x, y, kw, i, e, f) && y[i..f] == t
  {
    MatchStart(x, kw, i);
    SpliceParts(x, t, i, e, y);
    forall k | 0 <= k <= i ensures y[k] == x[k] {
      if k == i {
        assert y[i] == t[0];
      }
    }
    forall k | f <= k < |y| ensures y[k] == x[k - f + e] {
      assert k - f + e == k - (i + |t|) + e;
    }
  }

  lemma ReplaceFirstAt(x: string, kw: string, replacement: string, i: nat, e: nat)
    requires FirstMatch(x, kw, 0) == Some((i, e))
    ensures i <= e <= |x| && ReplaceFirst(x, kw, replacement) == x[..i] + replacement + x[e..]
  {
  }

  /** The parts of `y`, which is `x[..i] + t + x[e..]`. */
  lemma SpliceParts(x: string, t: string, i: nat, e: nat, y: string)
    requires i <= e <= |x| && y == x[..i] + t + x[e..]
    ensures |y| - (i + |t|) == |x| - e
    ensures forall k {:trigger y[k]} :: 0 <= k < i ==> y[k] == x[k]
    ensures forall k {:trigger y[k]} :: i + |t| <= k < |y| ==> y[k] == x[k - (i + |t|) + e]
    ensures y[i..i + |t|] == t && y[..i] + t + y[i + |t|..] == y
    ensures 0 < |t| ==> y[i] == t[0]
  {
    assert y[i..i + |t|] == t;
    assert y[i + |t|..] == x[e..];
  }

  /** After the splice, the setting is the keyword's first match. */
  lemma SplicedFirst(x: string, y: string, kw: string, i: nat, e: nat, f: nat)
    requires Anchored(kw) && Spliced(x, y, kw, i, e, f)
    requires forall j :: 0 <= j < i ==> MatchEnd(x, kw, j).None?
    ensures FirstMatch(y, kw, 0) == Some((i, f))
  {
    forall j | 0 <= j < i
      ensures MatchEnd(y, kw, j).None?
    {
      assert x[..i + 1] == y[..i + 1];
      MatchesBefore(x, y, kw, i, j);
    }
    FirstMatchIs(y, kw, i, f);
  }

  /**
   * Replacing the first match of an anchored keyword with a non-negative setting leaves that
   * setting as the keyword's first match.
   */
  lemma ReplaceFirstSettles(s: string, kw: string, value: int)
    requires Anchored(kw) && value >= 0
    ensures FirstMatchText(ReplaceFirst(s, kw, Setting(kw, value)), kw)
            == (if FirstMatch(s, kw, 0).Some? then Some(Setting(kw, value)) else None)
  {
    if FirstMatch(s, kw, 0).Some? {
      var (i, e) := FirstMatch(s, kw, 0).value;
      var y, f := ReplaceFirst(s, kw, Setting(kw, value)), i + |Setting(kw, value)|;
      SplicedSetting(s, kw, value, i, e, y, f);
      SplicedFirst(s, y, kw, i, e, f);
    }
  }

  /** Replacing the first match of an anchored keyword a second time with the same non-negative setting changes nothing. */
  lemma ReplaceFirstIdempotent(s: string, kw: string, value: int)
    requires Anchored(kw) && value >= 0
    ensures var once := ReplaceFirst(s, kw, Setting(kw, value));
            ReplaceFirst(once, kw, Setting(kw, value)) == once
  {
    ReplaceFirstSettles(s, kw, value);
    SettledIsFixed(ReplaceFirst(s, kw, Setting(kw, value)), kw, Setting(kw, value));
  }

  /** Where `kw1` matches in a text with a `kw2` splice, against where it matched before. */
  lemma SplicedMatches(x: string, y: string, kw1: string, kw2: string, i: nat, e: nat, f: nat)
    requires Anchored(kw1) && Anchored(kw2) && Apart(kw1, kw2) && Spliced(x, y, kw2, i, e, f)
    ensures forall j {:trigger MatchEnd(y, kw1, j)} :: 0 <= j < i ==> MatchEnd(y, kw1, j) == MatchEnd(x, kw1, j)
    ensures forall j :: 0 <= j < i && MatchEnd(x, kw1, j).Some? ==> MatchEnd(x, kw1, j).value <= i
    ensures forall j :: i <= j < e ==> MatchEnd(x, kw1, j).None?
    ensures forall j :: i <= j < f ==> MatchEnd(y, kw1, j).None?
  {
    assert NotInTail(kw2[0], kw1);
    forall j | 0 <= j < i
      ensures MatchEnd(y, kw1, j) == MatchEnd(x, kw1, j)
      ensures MatchEnd(x, kw1, j).Some? ==> MatchEnd(x, kw1, j).value <= i
    {
      assert x[..i + 1] == y[..i + 1];
      MatchesBefore(x, y, kw1, i, j);
    }
    forall j | i <= j < e
      ensures MatchEnd(x, kw1, j).None?
    {
      NoMatchInside(x, kw2, i, e, kw1, j);
    }
    forall j | i <= j < f
      ensures MatchEnd(y, kw1, j).None?
    {
      NoMatchInside(y, kw2, i, f, kw1, j);
    }
  }

  /** A `kw1` match after the splice moves with the text that follows it. */
  lemma SplicedMatchAt(x: string, y: string, e: nat, f: nat, kw1: string, j: nat)
    requires SameTail(x, y, e, f) && f <= j <= |y|
    ensures e <= j - f + e <= |x|
    ensures MatchEnd(y, kw1, j).None? <==> MatchEnd(x, kw1, j - f + e).None?
    ensures MatchEnd(y, kw1, j).Some? ==> MatchEnd(y, kw1, j).value == MatchEnd(x, kw1, j - f + e).value - e + f
  {
    var k := j - f + e;
    ShiftedSlice(x, y, e, f, k, |x|, j, |y|);
    assert x[k..] == y[j..] by {
      assert x[k..] == x[k..|x|] && y[j..] == y[j..|y|];
    }
    MatchesAfter(x, y, kw1, k, j);
  }

  lemma SplicedMatchMoves(x: string, y: string, e: nat, f: nat, kw1: string, p: nat, q: nat, p': nat, q': nat)
    requires SameTail(x, y, e, f) && e <= p <= |x| && MatchEnd(x, kw1, p) == Some(q)
    requires p' == p - e + f && q' == q - e + f
    ensures p' <= |y| && MatchEnd(y, kw1, p') == Some(q')
  {
    SplicedMatchAt(x, y, e, f, kw1, p');
    assert p' - f + e == p;
  }

  /** Equal characters before the splice give equal slices. */
  lemma LeadingSlice(x: string, y: string, i: nat, p: nat, q: nat)
    requires p <= q <= i < |x| && i < |y|
    requires forall k {:trigger y[k]} :: 0 <= k <= i ==> y[k] == x[k]
    ensures y[p..q] == x[p..q]
  {
    forall m | 0 <= m < q - p
      ensures y[p..q][m] == x[p..q][m]
    {
      assert y[p + m] == x[p + m];
    }
  }

  /** Equal characters after the splice give equal slices, at shifted positions. */
  lemma ShiftedSlice(x: string, y: string, e: nat, f: nat, p: nat, q: nat, p': nat, q': nat)
    requires e <= p <= q <= |x| && f <= |y| && |y| - f == |x| - e
    requires forall k {:trigger y[k]} :: f <= k < |y| ==> y[k] == x[k - f + e]
    requires p' == p - e + f && q' == q - e + f
    ensures y[p'..q'] == x[p..q]
  {
    forall m | 0 <= m < q - p
      ensures y[p'..q'][m] == x[p..q][m]
    {
      assert y[p' + m] == x[p + m];
    }
  }

  /** Without a `kw1` match before the splice, there is none after it either. */
  lemma SplicedKeepsNoMatch(x: string, y: string, kw1: string, kw2: string, i: nat, e: nat, f: nat)
    requires Anchored(kw1) && Anchored(kw2) && Apart(kw1, kw2) && Spliced(x, y, kw2, i, e, f)
    requires FirstMatch(x, kw1, 0).None?
    ensures FirstMatchText(y, kw1).None?
  {
    SplicedMatches(x, y, kw1, kw2, i, e, f);
    forall j | f <= j <= |y|
      ensures MatchEnd(y, kw1, j).None?
    {
      SplicedMatchAt(x, y, e, f, kw1, j);
    }
  }

  /** A first `kw1` match before the splice stays where it was. */
  lemma SplicedKeepsEarlierMatch(x: string, y: string, kw1: string, kw2: string, i: nat, e: nat, f: nat, p: nat, q: nat)
    requires Anchored(kw1) && Anchored(kw2) && Apart(kw1, kw2) && Spliced(x, y, kw2, i, e, f)
    requires FirstMatch(x, kw1, 0) == Some((p, q)) && p < i
    ensures FirstMatchText(y, kw1) == Some(x[p..q])
  {
    assert q <= i && MatchEnd(y, kw1, p) == Some(q) && forall j :: 0 <= j < p ==> MatchEnd(y, kw1, j).None? by {
      SplicedMatches(x, y, kw1, kw2, i, e, f);
    }
    assert p <= q;
    LeadingSlice(x, y, i, p, q);
    FirstMatchIs(y, kw1, p, q);
    FirstMatchTextIs(y, kw1, p, q, x[p..q]);
  }

  /** A first `kw1` match after the splice moves by the difference in length. */
  lemma SplicedKeepsLaterMatch(x: string, y: string, kw1: string, kw2: string, i: nat, e: nat, f: nat, p: nat, q: nat)
    requires Anchored(kw1) && Anchored(kw2) && Apart(kw1, kw2) && Spliced(x, y, kw2, i, e, f)
    requires FirstMatch(x, kw1, 0) == Some((p, q)) && i <= p
    ensures FirstMatchText(y, kw1) == Some(x[p..q])
  {
    assert e <= p by {
      SplicedMatches(x, y, kw1, kw2, i, e, f);
      assert MatchEnd(x, kw1, p).Some?;
    }
    var p', q' := p - e + f, q - e + f;
    assert p' <= |y| && forall j :: 0 <= j < p' ==> MatchEnd(y, kw1, j).None? by {
      SplicedNoEarlierMatch(x, y, kw1, kw2, i, e, f, p);
    }
    assert MatchEnd(y, kw1, p') == Some(q') by {
      SplicedMatchMoves(x, y, e, f, kw1, p, q, p', q');
    }
    assert y[p'..q'] == x[p..q] by {
      ShiftedSlice(x, y, e, f, p, q, p', q');
    }
    FirstMatchIs(y, kw1, p', q');
    FirstMatchTextIs(y, kw1, p', q', x[p..q]);
  }

  /** Without a `kw1` match in `x` before `p`, past the splice, there is none in `y` before `p`'s new place. */
  lemma SplicedNoEarlierMatch(x: string, y: string, kw1: string, kw2: string, i: nat, e: nat, f: nat, p: nat)
    requires Anchored(kw1) && Anchored(kw2) && Apart(kw1, kw2) && Spliced(x, y, kw2, i, e, f)
    requires e <= p <= |x| && forall j :: 0 <= j < p ==> MatchEnd(x, kw1, j).None?
    ensures p - e + f <= |y|
    ensures forall j :: 0 <= j < p - e + f ==> MatchEnd(y, kw1, j).None?
  {
    SplicedMatches(x, y, kw1, kw2, i, e, f);
    forall j | 0 <= j < p - e + f
      ensures MatchEnd(y, kw1, j).None?
    {
      if j < i {
        assert MatchEnd(x, kw1, j).None?;
      } else if f <= j {
        SplicedMatchAt(x, y, e, f, kw1, j);
      }
    }
  }

  lemma FirstMatchTextIs(s: string, kw: string, i: nat, e: nat, t: string)
    requires FirstMatch(s, kw, 0) == Some((i, e)) && s[i..e] == t
    ensures FirstMatchText(s, kw) == Some(t)
  {
  }

  /**
   * Replacing the first match of one keyword leaves the text of the other keyword's first
   * match as it was.
   */
  lemma ReplaceFirstKeepsOther(x: string, kw1: string, kw2: string, value: int)
    requires Anchored(kw1) && Anchored(kw2) && Apart(kw1, kw2) && value >= 0
    ensures FirstMatchText(ReplaceFirst(x, kw2, Setting(kw2, value)), kw1) == FirstMatchText(x, kw1)
  {
    if FirstMatch(x, kw2, 0).Some? {
      var (i, e) := FirstMatch(x, kw2, 0).value;
      var y := ReplaceFirst(x, kw2, Setting(kw2, value));
      var f := i + |Setting(kw2, value)|;
      SplicedSetting(x, kw2, value, i, e, y, f);
      match FirstMatch(x, kw1, 0)
      case None =>
        SplicedKeepsNoMatch(x, y, kw1, kw2, i, e, f);
      case Some((p, q)) =>
        if p < i {
          SplicedKeepsEarlierMatch(x, y, kw1, kw2, i, e, f, p, q);
        } else {
          SplicedKeepsLaterMatch(x, y, kw1, kw2, i, e, f, p, q);
        }
    }
  }

  // ---------------------------------------------------------------------------
  // The rewriter

  /**
   * After rewriting with a non-negative slide and width, the first STEP declaration reads the
   * new slide and the first RANGE declaration the new width, each when the query had one.
   */
  lemma RewriteSetsChunkSize(rewriter: RewriteChunkQuery, query: string)
    requires rewriter.newSlide >= 0 && rewriter.newWidth >= 0
    ensures var rewritten := rewriter.RewriteQueryWithNewChunkSize(query);
            && FirstMatchText(rewritten, "STEP")
               == (if FirstMatchText(query, "STEP").Some? then Some(Setting("STEP", rewriter.newSlide)) else None)
            && FirstMatchText(rewritten, "RANGE")
               == (if FirstMatchText(query, "RANGE").Some? then Some(Setting("RANGE", rewriter.newWidth)) else None)
  {
    var stepped := ReplaceFirst(query, "STEP", Setting("STEP", rewriter.newSlide));
    KeywordsAnchoredAndApart();
    ReplaceFirstSettles(query, "STEP", rewriter.newSlide);
    ReplaceFirstKeepsOther(stepped, "STEP", "RANGE", rewriter.newWidth);
    ReplaceFirstKeepsOther(query, "RANGE", "STEP", rewriter.newSlide);
    ReplaceFirstSettles(stepped, "RANGE", rewriter.newWidth);
  }

  /** Rewriting a rewritten query with the same non-negative slide and width changes nothing. */
  lemma RewriteIdempotent(rewriter: RewriteChunkQuery, query: string)
    requires rewriter.newSlide >= 0 && rewriter.newWidth >= 0
    ensures var rewritten := rewriter.RewriteQueryWithNewChunkSize(query);
            rewriter.RewriteQueryWithNewChunkSize(rewritten) == rewritten
  {
    var rewritten := rewriter.RewriteQueryWithNewChunkSize(query);
    RewriteSetsChunkSize(rewriter, query);
    SettledIsFixed(rewritten, "STEP", Setting("STEP", rewriter.newSlide));
    SettledIsFixed(rewritten, "RANGE", Setting("RANGE", rewriter.newWidth));
  }

  /** A text whose first match already reads the replacement is not changed by the replacement. */
  lemma SettledIsFixed(s: string, kw: string, replacement: string)
    requires FirstMatchText(s, kw) == None || FirstMatchText(s, kw) == Some(replacement)
    ensures ReplaceFirst(s, kw, replacement) == s
  {
    if FirstMatch(s, kw, 0).Some? {
      var (i, e) := FirstMatch(s, kw, 0).value;
      ReplaceFirstAt(s, kw, replacement, i, e);
      assert replacement == s[i..e];
      assert s[..i] + s[i..e] + s[e..] == s;
    }
  }

  /** A query without any STEP or RANGE declaration comes back unchanged. */
  lemma RewriteWithoutDeclarations(rewriter: RewriteChunkQuery, query: string)
    requires forall j, f :: 0 <= j <= |query| ==> !IsMatch(query, "STEP", j, f) && !IsMatch(query, "RANGE", j, f)
    ensures rewriter.RewriteQueryWithNewChunkSize(query) == query
  {
    ReplaceFirstWithoutMatch(query, "STEP", Setting("STEP", rewriter.newSlide));
    ReplaceFirstWithoutMatch(query, "RANGE", Setting("RANGE", rewriter.newWidth));
  }

  /** No match starts inside a piece of the text that lacks the keyword's first character. */
  lemma NoMatchInPiece(s: string, kw: string, pre: string, piece: string, post: string)
    requires s == pre + piece + post && |kw| > 0 && kw[0] !in piece
    ensures forall j :: |pre| <= j < |pre| + |piece| ==> MatchEnd(s, kw, j).None?
  {
    forall j | |pre| <= j < |pre| + |piece|
      ensures MatchEnd(s, kw, j).None?
    {
      MatchStart(s, kw, j);
      assert s[j] == piece[j - |pre|];
    }
  }

  /** No match starts where a word of the keyword's length other than the keyword stands. */
  lemma NoMatchAtWord(s: string, kw: string, pre: string, word: string, post: string)
    requires s == pre + word + post && |word| == |kw| && word != kw
    ensures MatchEnd(s, kw, |pre|).None?
  {
    assert s[|pre|..|pre| + |kw|] == word;
  }

  lemma StepFound(query: string)
    requires query == "[RANGE 10 STEP 5]"
    ensures FirstMatch(query, "STEP", 0) == Some((10, 16))
  {
    NoMatchInPiece(query, "STEP", "", "[RANGE 10 ", "STEP 5]");
    assert IsMatchSplit(query, "STEP", 10, 15, 16);
    MatchEndMeaning(query, "STEP", 10, 16);
    FirstMatchIs(query, "STEP", 10, 16);
  }

  lemma StepExample(query: string)
    requires query == "[RANGE 10 STEP 5]"
    ensures ReplaceFirst(query, "STEP", "STEP 15") == "[RANGE 10 STEP 15]"
  {
    StepLiterals(query);
    StepFound(query);
    ReplaceFirstAt(query, "STEP", "STEP 15", 10, 16);
    SpliceWord(query, "[RANGE 10 ", "STEP 5", "]", "STEP 15");
  }

  lemma RangeFound(query: string)
    requires query == "[RANGE 10 STEP 15]"
    ensures FirstMatch(query, "RANGE", 0) == Some((1, 9))
  {
    NoMatchInPiece(query, "RANGE", "", "[", "RANGE 10 STEP 15]");
    assert IsMatchSplit(query, "RANGE", 1, 7, 9);
    MatchEndMeaning(query, "RANGE", 1, 9);
    FirstMatchIs(query, "RANGE", 1, 9);
  }

  lemma RangeExample(query: string)
    requires query == "[RANGE 10 STEP 15]"
    ensures ReplaceFirst(query, "RANGE", "RANGE 30") == "[RANGE 30 STEP 15]"
  {
    RangeLiterals(query);
    RangeFound(query);
    ReplaceFirstAt(query, "RANGE", "RANGE 30", 1, 9);
    SpliceWord(query, "[", "RANGE 10", " STEP 15]", "RANGE 30");
  }

  lemma StepLiterals(query: string)
    requires query == "[RANGE 10 STEP 5]"
    ensures query == "[RANGE 10 " + "STEP 5" + "]" && "[RANGE 10 " + "STEP 15" + "]" == "[RANGE 10 STEP 15]"
  {
  }

  lemma RangeLiterals(query: string)
    requires query == "[RANGE 10 STEP 15]"
    ensures query == "[" + "RANGE 10" + " STEP 15]" && "[" + "RANGE 30" + " STEP 15]" == "[RANGE 30 STEP 15]"
  {
  }

  lemma SpliceWord(s: string, pre: string, word: string, post: string, replacement: string)
    requires s == pre + word + post
    ensures s[..|pre|] + replacement + s[|pre| + |word|..] == pre + replacement + post
  {
    assert s[..|pre|] == pre && s[|pre| + |word|..] == post;
  }

  /** The window bounds of a query rewritten by a rewriter built with slide 15 and width 30. */
  lemma RewriteExample(rewriter: RewriteChunkQuery)
    requires rewriter.newSlide == 15 && rewriter.newWidth == 30
    ensures rewriter.RewriteQueryWithNewChunkSize("[RANGE 10 STEP 5]") == "[RANGE 30 STEP 15]"
  {
    assert Setting("STEP", 15) == "STEP 15" && Setting("RANGE", 30) == "RANGE 30";
    StepExample("[RANGE 10 STEP 5]");
    RangeExample("[RANGE 10 STEP 15]");
  }
}
