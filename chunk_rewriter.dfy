/**
 * The chunk rewriter: it gives an RSP-QL query new window parameters by replacing the first
 * `STEP <digits>` with the new slide and then the first `RANGE <digits>` with the new width,
 * as two JavaScript `String.prototype.replace` calls with the non-global regular expressions
 * `/STEP\s+\d+/` and `/RANGE\s+\d+/`.
 */
module ChunkRewriting {
  import opened Wrappers
  import opened Text

  // ---------------------------------------------------------------------------
  // The regular expression `kw\s+\d+`

  /**
   * Where the match of `kw\s+\d+` that starts at `i` ends, if one starts there. Both runs are
   * taken whole, as the greedy quantifiers do; backtracking into the white space cannot help,
   * since no white-space character is a digit.
   */
  function MatchEnd(s: string, kw: string, i: nat): (r: Option<nat>)
    requires i <= |s|
    ensures r.Some? ==> i + |kw| < r.value <= |s|
  {
    if i + |kw| <= |s| && s[i..i + |kw|] == kw then
      var a := i + |kw|;
      var b := RunEnd(s, a, IsJsSpace);
      var c := RunEnd(s, b, IsDigit);
      if a < b && b < c then Some(c) else None
    else
      None
  }

  /** The leftmost match at or after `from`, as its start and end. */
  function FirstMatch(s: string, kw: string, from: nat): (r: Option<(nat, nat)>)
    requires from <= |s|
    ensures r.Some? ==> from <= r.value.0 <= |s| && MatchEnd(s, kw, r.value.0) == Some(r.value.1)
    ensures r.Some? ==> forall j :: from <= j < r.value.0 ==> MatchEnd(s, kw, j).None?
    ensures r.None? ==> forall j :: from <= j <= |s| ==> MatchEnd(s, kw, j).None?
    decreases |s| - from
  {
    match MatchEnd(s, kw, from)
    case Some(e) => Some((from, e))
    case None => if from == |s| then None else FirstMatch(s, kw, from + 1)
  }

  /** The text of the leftmost match, if there is one. */
  function FirstMatchText(s: string, kw: string): Option<string> {
    match FirstMatch(s, kw, 0)
    case None => None
    case Some((i, e)) => Some(s[i..e])
  }

  /** `s.replace(/kw\s+\d+/, replacement)`: the leftmost match, and only it, is replaced. */
  function ReplaceFirst(s: string, kw: string, replacement: string): string {
    match FirstMatch(s, kw, 0)
    case None => s
    case Some((i, e)) => s[..i] + replacement + s[e..]
  }

  /** The text the rewriter puts in place of a match: the keyword, one space and the value. */
  function Setting(kw: string, value: int): string {
    kw + " " + IntText(value)
  }

  // ---------------------------------------------------------------------------
  // The rewriter

  /** A rewriter holding the slide and the width it writes into queries. */
  class RewriteChunkQuery {
    const newSlide: int
    const newWidth: int

    constructor (newSlide: int, newWidth: int)
      ensures this.newSlide == newSlide && this.newWidth == newWidth
    {
      this.newSlide := newSlide;
      this.newWidth := newWidth;
    }

    /** The STEP replacement first, then the RANGE replacement on its result. */
    function RewriteQueryWithNewChunkSize(query: string): string {
      ReplaceFirst(ReplaceFirst(query, "STEP", Setting("STEP", newSlide)), "RANGE", Setting("RANGE", newWidth))
    }
  }
}
