/**
 * The fuzzy aligner of the stabilisation engine: how far the newest pass's
 * text agrees with the retained tail of the previous pass, under ASCII case
 * folding and with '-' treated as ' ', plus the sentence-boundary resync that
 * recovers alignment after the backend revised words inside a sentence.
 *
 * Text is a `string` in which every char stands for one byte of the UTF-8
 * text the backend returned.
 */
module Aligner {

  /** Bytes that the aligner treats as a word separator. */
  predicate IsSep(c: char) { c == ' ' || c == '-' }

  /** tolower() in the C locale, then '-' read as ' '. */
  function Fold(c: char): (f: char)
    ensures f == ' ' <==> IsSep(c)
  {
    var lower := if 'A' <= c <= 'Z' then (c as int + 32) as char else c;
    if lower == '-' then ' ' else lower
  }

  /** Terminators that close a sentence: `. ! ? :`. */
  predicate IsStrong(c: char) { c == '.' || c == '!' || c == '?' || c == ':' }

  /** The first index at or after i that is not a separator (or |s|). */
  function SkipSeps(s: string, i: nat): (j: nat)
    requires i <= |s|
    ensures i <= j <= |s|
    ensures forall k :: i <= k < j ==> IsSep(s[k])
    ensures j < |s| ==> !IsSep(s[j])
    decreases |s| - i
  {
    if i < |s| && IsSep(s[i]) then SkipSeps(s, i + 1) else i
  }

  /**
   * The prefix walk over a (the new pass) and b (the previous tail) from
   * positions ia and ib, with `common` the sync point recorded so far.
   * A separator on both sides records ia and skips both separator runs;
   * equal folded bytes advance both and record ia + 1; a mismatch stops.
   * The result is a position in a.
   */
  function Scan(a: string, b: string, ia: nat, ib: nat, common: nat): (r: nat)
    requires ia <= |a| && ib <= |b|
    ensures common <= ia ==> common <= r <= |a|
    decreases |a| - ia
  {
    if ia < |a| && ib < |b| then
      var ca := Fold(a[ia]);
      var cb := Fold(b[ib]);
      if ca == ' ' && cb == ' ' then
        Scan(a, b, SkipSeps(a, ia + 1), SkipSeps(b, ib + 1), ia)
      else if ca != cb then
        common
      else
        Scan(a, b, ia + 1, ib + 1, ia + 1)
    else
      common
  }

  /** The fuzzy common prefix of the new text a and the retained tail b. */
  function FuzzyPrefix(a: string, b: string): (r: nat)
    ensures r <= |a|
  {
    Scan(a, b, 0, 0, 0)
  }

  /**
   * The restart point after the first strong terminator followed by a space
   * at or after `from`: i + 2 for the least such i, or -1 when there is none.
   */
  function FindTerminator(s: string, from: nat): (r: int)
    ensures r == -1 || (from + 2 <= r <= |s| && IsStrong(s[r - 2]) && s[r - 1] == ' ')
    ensures r == -1 ==> forall k :: from <= k < |s| - 1 ==> !(IsStrong(s[k]) && s[k + 1] == ' ')
    ensures r != -1 ==> forall k :: from <= k < r - 2 ==> !(IsStrong(s[k]) && s[k + 1] == ' ')
    decreases |s| - from
  {
    if from + 1 < |s| then
      if IsStrong(s[from]) && s[from + 1] == ' ' then from + 2 else FindTerminator(s, from + 1)
    else
      -1
  }

  /** The re-aligned length from the two restart points, when resync applies. */
  function ResyncCandidate(a: string, b: string, common: nat): (r: int)
  {
    var sbA := FindTerminator(a, common);
    var sbB := if sbA >= 0 then FindTerminator(b, common) else -1;
    if sbA >= 0 && sbB >= 0 && sbA < |a| && sbB < |b| then
      var sync := Scan(a, b, sbA, sbB, sbA);
      if sync - sbA >= 20 && sync > common then sync else -1
    else
      -1
  }

  /**
   * The aligned length used by the commit selector: the fuzzy prefix,
   * replaced by the resync length when the walk stopped before the end of
   * both strings and the resync reaches 20 bytes past its restart point.
   */
  function Common(a: string, b: string): (r: nat)
  {
    var common := FuzzyPrefix(a, b);
    if common < |a| && common < |b| && ResyncCandidate(a, b, common) >= 0 then
      ResyncCandidate(a, b, common)
    else
      common
  }

  // ---------------------------------------------------------------------
  // The loops as the pass-completion handler runs them
  // ---------------------------------------------------------------------

  /** The prefix walk loop, from (ia, ib) with `common` as the sync point so far. */
  method WalkPrefix(a: string, b: string, ia0: nat, ib0: nat, common0: nat) returns (common: nat)
    requires ia0 <= |a| && ib0 <= |b|
    ensures common == Scan(a, b, ia0, ib0, common0)
  {
    var ia: nat, ib: nat := ia0, ib0;
    common := common0;
    while ia < |a| && ib < |b|
      invariant ia <= |a| && ib <= |b|
      invariant Scan(a, b, ia, ib, common) == Scan(a, b, ia0, ib0, common0)
      decreases |a| - ia
    {
      var ca := Fold(a[ia]);
      var cb := Fold(b[ib]);
      if ca == ' ' && cb == ' ' {
        common := ia;
        ia, ib := ia + 1, ib + 1;
        while ia < |a| && (a[ia] == ' ' || a[ia] == '-')
          invariant ia <= |a| && SkipSeps(a, ia) == SkipSeps(a, common + 1)
          decreases |a| - ia
        {
          ia := ia + 1;
        }
        ghost var ib1 := ib;
        while ib < |b| && (b[ib] == ' ' || b[ib] == '-')
          invariant ib1 <= ib <= |b| && SkipSeps(b, ib) == SkipSeps(b, ib1)
          decreases |b| - ib
        {
          ib := ib + 1;
        }
        continue;
      }
      if ca != cb {
        break;
      }
      common := ia + 1;
      ia, ib := ia + 1, ib + 1;
    }
  }

  /** The terminator search loop `for (i = from; i < len - 1; i++)`. */
  method SearchTerminator(s: string, from: nat) returns (sb: int)
    ensures sb == FindTerminator(s, from)
  {
    sb := -1;
    var i: nat := from;
    while i + 1 < |s|
      invariant from <= i
      invariant FindTerminator(s, i) == FindTerminator(s, from)
      decreases |s| - i
    {
      if IsStrong(s[i]) && s[i + 1] == ' ' {
        sb := i + 2;
        break;
      }
      i := i + 1;
    }
  }

  /** The aligner of main.c as one method: fuzzy walk, then sentence-boundary resync. */
  method AlignCommon(result: string, prev: string) returns (common: nat)
    ensures common == Common(result, prev)
    ensures common <= |result|
  {
    common := WalkPrefix(result, prev, 0, 0, 0);
    if common < |result| && common < |prev| {
      var sbA := SearchTerminator(result, common);
      var sbB := -1;
      if sbA >= 0 {
        sbB := SearchTerminator(prev, common);
      }
      if sbA >= 0 && sbB >= 0 && sbA < |result| && sbB < |prev| {
        var syncCommon := WalkPrefix(result, prev, sbA, sbB, sbA);
        if syncCommon - sbA >= 20 && syncCommon > common {
          common := syncCommon;
        }
      }
    }
    CommonBounds(result, prev);
  }

  // ---------------------------------------------------------------------
  // Properties of the aligner
  // ---------------------------------------------------------------------

  /** The aligned length never exceeds the new text and never falls below the fuzzy prefix. */
  lemma CommonBounds(a: string, b: string)
    ensures FuzzyPrefix(a, b) <= Common(a, b) <= |a|
  {
    var common := FuzzyPrefix(a, b);
    if common < |a| && common < |b| && ResyncCandidate(a, b, common) >= 0 {
      var sbA := FindTerminator(a, common);
      var sbB := FindTerminator(b, common);
      assert Scan(a, b, sbA, sbB, sbA) <= |a|;
    }
  }

  /** i and j are strong terminators followed by a space at or after c in a
      and in b, with both restart points inside their strings. */
  predicate RestartPoints(a: string, b: string, c: nat, i: nat, j: nat)
  {
    c <= i && c <= j && i + 2 < |a| && j + 2 < |b| &&
    IsStrong(a[i]) && a[i + 1] == ' ' && IsStrong(b[j]) && b[j + 1] == ' '
  }

  /**
   * Resync is adopted only when the fuzzy walk stopped before the end of both
   * strings, both strings have a strong terminator followed by a space at or
   * after that point (the first such, in each), both restart points lie inside
   * their strings, and the re-aligned walk reaches at least 20 bytes past the
   * restart point in a and beyond the old length.
   */
  lemma ResyncOnlyWhen(a: string, b: string)
    requires Common(a, b) != FuzzyPrefix(a, b)
    ensures FuzzyPrefix(a, b) < |a| && FuzzyPrefix(a, b) < |b|
    ensures var c := FuzzyPrefix(a, b);
      var i, j := FindTerminator(a, c) - 2, FindTerminator(b, c) - 2;
      i >= 0 && j >= 0 && RestartPoints(a, b, c, i, j) &&
      Common(a, b) == Scan(a, b, i + 2, j + 2, i + 2) &&
      Common(a, b) >= i + 2 + 20 && Common(a, b) > c
  {
  }

  /** Scanning a string against itself from a shared position reaches its
      end exactly when it does not end in a separator. */
  lemma {:induction false} SelfScan(s: string, i: nat, c: nat)
    requires c <= i < |s|
    ensures Scan(s, s, i, i, c) == |s| <==> !IsSep(s[|s| - 1])
    decreases |s| - i
  {
    if IsSep(s[i]) {
      var j := SkipSeps(s, i + 1);
      if j < |s| {
        SelfScan(s, j, i);
      } else {
        assert IsSep(s[|s| - 1]);
      }
    } else if i + 1 < |s| {
      SelfScan(s, i + 1, i + 1);
    }
  }

  /** Idempotent alignment: a text aligned with itself yields its full length
      unless it ends in a space or hyphen. */
  lemma SelfAlign(s: string)
    ensures FuzzyPrefix(s, s) == |s| <==> (|s| == 0 || !IsSep(s[|s| - 1]))
  {
    if |s| > 0 {
      SelfScan(s, 0, 0);
    }
  }

  /** Two texts of the same length that agree byte by byte after folding. */
  predicate FoldEqual(a: string, b: string)
  {
    |a| == |b| && forall k :: 0 <= k < |a| ==> Fold(a[k]) == Fold(b[k])
  }

  lemma SkipSepsFoldEqual(a: string, b: string, i: nat)
    requires FoldEqual(a, b) && i <= |a|
    ensures SkipSeps(a, i) == SkipSeps(b, i)
    decreases |a| - i
  {
    if i < |a| {
      assert Fold(a[i]) == Fold(b[i]);
      if IsSep(a[i]) {
        SkipSepsFoldEqual(a, b, i + 1);
      }
    }
  }

  /** Replacing the previous tail by a fold-equal text does not change the walk. */
  lemma {:induction false} ScanFoldEqualRight(a: string, b: string, b': string, ia: nat, ib: nat, c: nat)
    requires FoldEqual(b, b') && ia <= |a| && ib <= |b|
    ensures Scan(a, b, ia, ib, c) == Scan(a, b', ia, ib, c)
    decreases |a| - ia
  {
    if ia < |a| && ib < |b| {
      assert Fold(b[ib]) == Fold(b'[ib]);
      if Fold(a[ia]) == ' ' && Fold(b[ib]) == ' ' {
        SkipSepsFoldEqual(b, b', ib + 1);
        ScanFoldEqualRight(a, b, b', SkipSeps(a, ia + 1), SkipSeps(b, ib + 1), ia);
      } else if Fold(a[ia]) == Fold(b[ib]) {
        ScanFoldEqualRight(a, b, b', ia + 1, ib + 1, ia + 1);
      }
    }
  }

  /**
   * ASCII case and '-' versus ' ' never stop the match: a text aligned with
   * any fold-equal text reaches its full length unless it ends in a space or
   * hyphen (so `co-operate` against `co operate` yields 10).
   */
  lemma FoldEqualAlign(a: string, b: string)
    requires FoldEqual(a, b)
    ensures FuzzyPrefix(a, b) == FuzzyPrefix(a, a)
    ensures |a| > 0 && !IsSep(a[|a| - 1]) ==> FuzzyPrefix(a, b) == |a|
  {
    assert FoldEqual(a, a);
    ScanFoldEqualRight(a, a, b, 0, 0, 0);
    SelfAlign(a);
  }

  lemma SkipSepsShift(p: string, x: string, i: nat)
    requires i <= |x|
    ensures SkipSeps(p + x, |p| + i) == |p| + SkipSeps(x, i)
    decreases |x| - i
  {
    if i < |x| {
      assert (p + x)[|p| + i] == x[i];
      if IsSep(x[i]) {
        SkipSepsShift(p, x, i + 1);
      }
    }
  }

  /** The walk does not depend on what precedes the two positions. */
  lemma {:induction false} ScanShift(p: string, q: string, x: string, y: string, i: nat, j: nat, c: nat)
    requires i <= |x| && j <= |y|
    ensures Scan(p + x, q + y, |p| + i, |q| + j, |p| + c) == |p| + Scan(x, y, i, j, c)
    decreases |x| - i
  {
    if i < |x| && j < |y| {
      assert (p + x)[|p| + i] == x[i];
      assert (q + y)[|q| + j] == y[j];
      if Fold(x[i]) == ' ' && Fold(y[j]) == ' ' {
        SkipSepsShift(p, x, i + 1);
        SkipSepsShift(q, y, j + 1);
        ScanShift(p, q, x, y, SkipSeps(x, i + 1), SkipSeps(y, j + 1), i);
      } else if Fold(x[i]) == Fold(y[j]) {
        ScanShift(p, q, x, y, i + 1, j + 1, i + 1);
      }
    }
  }

  lemma SkipSepsInside(u: string, x: string, i: nat)
    requires i < |u| && !IsSep(u[|u| - 1])
    ensures SkipSeps(u + x, i) == SkipSeps(u, i) < |u|
    decreases |u| - i
  {
    if i < |u| {
      assert (u + x)[i] == u[i];
      if IsSep(u[i]) {
        SkipSepsInside(u, x, i + 1);
      }
    }
  }

  /** A shared prefix that does not end in a separator is walked in lock step. */
  lemma {:induction false} ScanSharedPrefix(u: string, x: string, y: string, i: nat, c: nat)
    requires c <= i < |u| && !IsSep(u[|u| - 1])
    ensures Scan(u + x, u + y, i, i, c) == Scan(u + x, u + y, |u|, |u|, |u|)
    decreases |u| - i
  {
    assert (u + x)[i] == u[i] && (u + y)[i] == u[i];
    if IsSep(u[i]) {
      SkipSepsInside(u, x, i + 1);
      SkipSepsInside(u, y, i + 1);
      ScanSharedPrefix(u, x, y, SkipSeps(u, i + 1), i);
    } else if i + 1 < |u| {
      ScanSharedPrefix(u, x, y, i + 1, i + 1);
    }
  }

  /** Agreement on a prefix u that does not end in a separator carries the walk past u. */
  lemma SharedPrefixAlign(u: string, x: string, y: string)
    requires |u| > 0 && !IsSep(u[|u| - 1])
    ensures FuzzyPrefix(u + x, u + y) == |u| + FuzzyPrefix(x, y)
  {
    ScanSharedPrefix(u, x, y, 0, 0);
    ScanShift(u, u, x, y, 0, 0, 0);
  }

  /** A non-empty run of separators. */
  predicate SepRun(r: string) { |r| > 0 && forall k :: 0 <= k < |r| ==> IsSep(r[k]) }

  /**
   * A run of spaces and hyphens on either side is one sync point, whatever
   * the two runs' lengths: after a shared prefix u, runs r1 and r2 are
   * skipped together, and when the next words disagree at once the aligned
   * length is the index |u| of the separator.
   */
  lemma SepRunIsOneSyncPoint(u: string, r1: string, r2: string, v: string, w: string)
    requires |u| > 0 && !IsSep(u[|u| - 1])
    requires SepRun(r1) && SepRun(r2)
    requires (|v| > 0 ==> !IsSep(v[0])) && (|w| > 0 ==> !IsSep(w[0]))
    ensures FuzzyPrefix(u + r1 + v, u + r2 + w) ==
      if FuzzyPrefix(v, w) == 0 then |u| else |u| + |r1| + FuzzyPrefix(v, w)
  {
    assert u + r1 + v == u + (r1 + v);
    assert u + r2 + w == u + (r2 + w);
    SharedPrefixAlign(u, r1 + v, r2 + w);
    var a, b := r1 + v, r2 + w;
    assert a[0] == r1[0] && b[0] == r2[0];
    SkipSepsShift(r1, v, 0);
    SkipSepsShift(r2, w, 0);
    SkipSepsStart(r1, v);
    SkipSepsStart(r2, w);
    assert SkipSeps(a, 1) == |r1| && SkipSeps(b, 1) == |r2|;
    assert FuzzyPrefix(a, b) == Scan(a, b, |r1|, |r2|, 0);
    if |v| > 0 && |w| > 0 && Fold(v[0]) == Fold(w[0]) {
      assert a[|r1|] == v[0] && b[|r2|] == w[0];
      ScanShift(r1, r2, v, w, 1, 1, 1);
      assert Scan(a, b, |r1|, |r2|, 0) == |r1| + Scan(v, w, 1, 1, 1);
      assert FuzzyPrefix(v, w) == Scan(v, w, 1, 1, 1);
    } else if |v| > 0 && |w| > 0 {
      assert a[|r1|] == v[0] && b[|r2|] == w[0];
    }
  }

  lemma SkipSepsStart(r: string, x: string)
    requires SepRun(r)
    ensures SkipSeps(r + x, 1) == SkipSeps(r + x, |r|)
    decreases |r|
  {
    SkipSepsWithin(r, x, 1);
  }

  lemma SkipSepsWithin(r: string, x: string, i: nat)
    requires SepRun(r) && 1 <= i <= |r|
    ensures SkipSeps(r + x, i) == SkipSeps(r + x, |r|)
    decreases |r| - i
  {
    if i < |r| {
      assert (r + x)[i] == r[i];
      SkipSepsWithin(r, x, i + 1);
    }
  }

  lemma {:induction false} SelfScanTail(s: string, i: nat, c: nat)
    requires c <= i <= |s|
    requires forall k :: c <= k < i ==> IsSep(s[k])
    ensures var r := Scan(s, s, i, i, c);
      r < |s| ==> forall k :: r <= k < |s| ==> IsSep(s[k])
    decreases |s| - i
  {
    if i < |s| {
      if IsSep(s[i]) {
        SelfScanTail(s, SkipSeps(s, i + 1), i);
      } else {
        SelfScanTail(s, i + 1, i + 1);
      }
    }
  }

  /** Identical texts never trigger resync: their aligned length is the fuzzy prefix. */
  lemma SelfCommon(s: string)
    ensures Common(s, s) == FuzzyPrefix(s, s)
  {
    var c := FuzzyPrefix(s, s);
    SelfScanTail(s, 0, 0);
    if c < |s| {
      var r := FindTerminator(s, c);
      assert r != -1 ==> IsSep(s[r - 2]);
    }
  }
}
