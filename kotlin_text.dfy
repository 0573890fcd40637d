/**
  * The two Kotlin string functions the view model relies on: `isBlank` and
  * `trim`. Both are defined in terms of `Char.isWhitespace`, whose Unicode
  * table is left abstract here: every function takes the whitespace test as
  * a parameter `ws`.
  */
module KotlinText {

  /** `s.isBlank()`: the string is empty or consists only of whitespace. */
  predicate IsBlank(s: string, ws: char -> bool)
  {
    forall k :: 0 <= k < |s| ==> ws(s[k])
  }

  /** Neither end of `t` is whitespace (vacuously true of the empty string). */
  predicate HasNoOuterBlanks(t: string, ws: char -> bool)
  {
    t == [] || (!ws(t[0]) && !ws(t[|t| - 1]))
  }

  /**
    * Reference definition of trimming: `t` is the slice `s[i..j]` of `s`
    * such that everything before `i` and from `j` on is whitespace and the
    * slice itself neither starts nor ends with whitespace.
    */
  ghost predicate TrimsTo(s: string, t: string, ws: char -> bool)
  {
    exists i, j :: 0 <= i <= j <= |s| && s[i..j] == t && TrimmedAt(s, i, j, ws)
  }

  ghost predicate TrimmedAt(s: string, i: int, j: int, ws: char -> bool)
    requires 0 <= i <= j <= |s|
  {
    && (forall k :: 0 <= k < i ==> ws(s[k]))
    && (forall k :: j <= k < |s| ==> ws(s[k]))
    && HasNoOuterBlanks(s[i..j], ws)
  }

  /** `s.trimStart()`: drops the leading whitespace. */
  function TrimStart(s: string, ws: char -> bool): (r: string)
    ensures |r| <= |s| && r == s[|s| - |r|..]
    ensures forall k :: 0 <= k < |s| - |r| ==> ws(s[k])
    ensures r != [] ==> !ws(r[0])
  {
    if s != [] && ws(s[0]) then TrimStart(s[1..], ws) else s
  }

  /** `s.trimEnd()`: drops the trailing whitespace. */
  function TrimEnd(s: string, ws: char -> bool): (r: string)
    ensures |r| <= |s| && r == s[..|r|]
    ensures forall k :: |r| <= k < |s| ==> ws(s[k])
    ensures r != [] ==> !ws(r[|r| - 1])
  {
    if s != [] && ws(s[|s| - 1]) then TrimEnd(s[..|s| - 1], ws) else s
  }

  /** `s.trim()`: drops the whitespace at both ends. */
  function Trim(s: string, ws: char -> bool): (r: string)
    ensures |r| <= |s|
    ensures TrimsTo(s, r, ws)
  {
    var t := TrimStart(s, ws);
    var r := TrimEnd(t, ws);
    assert s[|s| - |t|..|s| - |t| + |r|] == r;
    assert TrimmedAt(s, |s| - |t|, |s| - |t| + |r|, ws);
    r
  }

  /** What `trim` returns has no whitespace at either end. */
  lemma TrimHasNoOuterBlanks(s: string, ws: char -> bool)
    ensures HasNoOuterBlanks(Trim(s, ws), ws)
  {
    var t := Trim(s, ws);
    var i, j :| 0 <= i <= j <= |s| && s[i..j] == t && TrimmedAt(s, i, j, ws);
  }

  /** The reference definition admits one slice only, so it pins `Trim` down. */
  lemma TrimUnique(s: string, t: string, ws: char -> bool)
    requires TrimsTo(s, t, ws)
    ensures t == Trim(s, ws)
  {
    var t' := Trim(s, ws);
    var i, j :| 0 <= i <= j <= |s| && s[i..j] == t && TrimmedAt(s, i, j, ws);
    var i', j' :| 0 <= i' <= j' <= |s| && s[i'..j'] == t' && TrimmedAt(s, i', j', ws);
    SlicesAgree(s, i, j, i', j', ws);
  }

  /** Two trimmed slices of the same string hold the same characters. */
  lemma SlicesAgree(s: string, i: int, j: int, i': int, j': int, ws: char -> bool)
    requires 0 <= i <= j <= |s| && TrimmedAt(s, i, j, ws)
    requires 0 <= i' <= j' <= |s| && TrimmedAt(s, i', j', ws)
    ensures s[i..j] == s[i'..j']
  {
    if i < j {
      // s[i] is the first and s[j - 1] the last non-whitespace character of
      // s, so both lie inside the other slice, and the same holds the other
      // way round
      EndsKept(s, i, j, ws);
      KeptInside(s, i', j', i, ws);
      KeptInside(s, i', j', j - 1, ws);
      EndsKept(s, i', j', ws);
      KeptInside(s, i, j, i', ws);
      KeptInside(s, i, j, j' - 1, ws);
    } else {
      // the first slice is empty, so s is all whitespace and the second
      // cannot start with a non-whitespace character
      AllBlankOutside(s, i, ws);
      if i' < j' {
        EndsKept(s, i', j', ws);
      }
    }
  }

  /** The ends of a non-empty trimmed slice are not whitespace. */
  lemma EndsKept(s: string, i: int, j: int, ws: char -> bool)
    requires 0 <= i < j <= |s| && TrimmedAt(s, i, j, ws)
    ensures !ws(s[i]) && !ws(s[j - 1])
  {
    assert s[i..j][0] == s[i];
    assert s[i..j][j - i - 1] == s[j - 1];
  }

  /** Every non-whitespace character of `s` lies inside the trimmed slice. */
  lemma KeptInside(s: string, i: int, j: int, k: int, ws: char -> bool)
    requires 0 <= i <= j <= |s| && TrimmedAt(s, i, j, ws)
    requires 0 <= k < |s| && !ws(s[k])
    ensures i <= k < j
  {
  }

  /** When the trimmed slice is empty, nothing of `s` was kept. */
  lemma AllBlankOutside(s: string, i: int, ws: char -> bool)
    requires 0 <= i <= |s| && TrimmedAt(s, i, i, ws)
    ensures IsBlank(s, ws)
  {
  }

  /** `s.isBlank()` holds exactly when `s.trim()` is empty. */
  lemma BlankIffTrimEmpty(s: string, ws: char -> bool)
    ensures IsBlank(s, ws) <==> Trim(s, ws) == []
  {
    var r := Trim(s, ws);
    var i, j :| 0 <= i <= j <= |s| && s[i..j] == r && TrimmedAt(s, i, j, ws);
    if r != [] {
      EndsKept(s, i, j, ws);
    } else {
      AllBlankOutside(s, i, ws);
    }
  }

  /** Trimming twice is trimming once. */
  lemma TrimIdempotent(s: string, ws: char -> bool)
    ensures Trim(Trim(s, ws), ws) == Trim(s, ws)
  {
    var t := Trim(s, ws);
    var i, j :| 0 <= i <= j <= |s| && s[i..j] == t && TrimmedAt(s, i, j, ws);
    assert t[0..|t|] == t;
    assert TrimmedAt(t, 0, |t|, ws);
    TrimUnique(t, t, ws);
  }

  /** A string without blanks at its ends is left alone by `trim`. */
  lemma TrimKeepsTrimmed(s: string, ws: char -> bool)
    requires HasNoOuterBlanks(s, ws)
    ensures Trim(s, ws) == s
  {
    assert s[0..|s|] == s;
    assert TrimmedAt(s, 0, |s|, ws);
    TrimUnique(s, s, ws);
  }
}
