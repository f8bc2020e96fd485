/**
 * The commit selector of the stabilisation engine: given the aligned prefix
 * length `common` of the newest pass and the already-stable length, choose
 * how far the text may be committed.  The scan runs backwards from the end of
 * the aligned region; the first (rightmost) strong sentence mark wins; a
 * clause mark (`,` or `;`) is only a fallback and must leave at least 30
 * bytes of new text before it and 15 aligned bytes after it.
 */
module CommitSelector {
  import opened Aligner

  /** Clause marks: `,` and `;`. */
  predicate IsWeak(c: char) { c == ',' || c == ';' }

  /**
   * A mark at i may end a commit: it is followed by a space, or it is the
   * last byte of the aligned region (the byte after it is not looked at).
   */
  predicate Clean(a: string, common: nat, i: nat)
    requires i < |a| && common <= |a|
  {
    !(i + 1 < common && a[i + 1] != ' ')
  }

  /** The cut after the mark at i, absorbing one following space. */
  function Boundary(a: string, i: nat): (b: nat)
    requires i < |a|
    ensures i + 1 <= b <= |a| && b <= i + 2
    ensures b == i + 2 <==> (i + 1 < |a| && a[i + 1] == ' ')
  {
    if i + 1 < |a| && a[i + 1] == ' ' then i + 2 else i + 1
  }

  /** A strong mark strictly after `stable` and inside the aligned region. */
  predicate StrongCut(a: string, common: nat, stable: nat, i: nat)
    requires common <= |a|
  {
    stable < i < common && IsStrong(a[i]) && Clean(a, common, i)
  }

  /** A clause mark that leaves 30 new bytes before and 15 aligned bytes after it. */
  predicate WeakCut(a: string, common: nat, stable: nat, i: nat)
    requires common <= |a|
  {
    stable < i < common && IsWeak(a[i]) && Clean(a, common, i)
      && Boundary(a, i) - stable >= 30 && common - Boundary(a, i) >= 15
  }

  /**
   * The backward scan, one index at a time: i is the index under the scan,
   * best the rightmost qualifying clause cut seen so far (or -1).
   */
  function SelectFrom(a: string, common: nat, stable: nat, i: int, best: int): (r: nat)
    requires common <= |a| && i < common
    decreases i
  {
    if i <= stable then
      (if best > stable then best else stable)
    else if (IsStrong(a[i]) || IsWeak(a[i])) && Clean(a, common, i) then
      var b := Boundary(a, i);
      if IsStrong(a[i]) then b
      else
        var best' := if best < 0 && b - stable >= 30 && common - b >= 15 then b else best;
        SelectFrom(a, common, stable, i - 1, best')
    else
      SelectFrom(a, common, stable, i - 1, best)
  }

  /** The new stable length chosen for a pass whose aligned prefix is `common`. */
  function SelectCommit(a: string, common: nat, stable: nat): (r: nat)
    requires common <= |a|
    ensures stable <= r
    ensures r > stable ==> r <= |a|
  {
    SelectFromBounds(a, common, stable, common - 1, -1);
    SelectFrom(a, common, stable, common - 1, -1)
  }

  /** The selector loop as the engine runs it. */
  method SelectCut(a: string, common: nat, stable: nat) returns (newStable: nat)
    requires common <= |a|
    ensures newStable == SelectCommit(a, common, stable)
  {
    newStable := stable;
    var best := -1;
    var i := common - 1;
    while i > stable
      invariant i < common
      invariant SelectFrom(a, common, stable, i, best) == SelectCommit(a, common, stable)
      decreases i
    {
      var strong := IsStrong(a[i]);
      var weak := IsWeak(a[i]);
      if strong || weak {
        if i + 1 < common && a[i + 1] != ' ' {
          i := i - 1;
          continue;
        }
        var boundary := i + 1;
        if boundary < |a| && a[boundary] == ' ' {
          boundary := boundary + 1;
        }
        if strong {
          newStable := boundary;
          return;
        }
        if best < 0 && boundary - stable >= 30 && common - boundary >= 15 {
          best := boundary;
        }
      }
      i := i - 1;
    }
    if best > stable {
      newStable := best;
    }
  }

  // ---------------------------------------------------------------------
  // Properties
  // ---------------------------------------------------------------------

  /** The scan never moves the stable length backwards nor past the text. */
  lemma {:induction false} SelectFromBounds(a: string, common: nat, stable: nat, i: int, best: int)
    requires common <= |a| && i < common
    requires best < 0 || (stable < best <= |a|)
    ensures stable <= SelectFrom(a, common, stable, i, best)
    ensures SelectFrom(a, common, stable, i, best) > stable ==> SelectFrom(a, common, stable, i, best) <= |a|
    decreases i
  {
    if i <= stable {
    } else if (IsStrong(a[i]) || IsWeak(a[i])) && Clean(a, common, i) {
      var b := Boundary(a, i);
      if !IsStrong(a[i]) {
        var best' := if best < 0 && b - stable >= 30 && common - b >= 15 then b else best;
        SelectFromBounds(a, common, stable, i - 1, best');
      }
    } else {
      SelectFromBounds(a, common, stable, i - 1, best);
    }
  }

  /** Once a clause cut is recorded, later (leftward) clause marks no longer matter. */
  lemma {:induction false} SelectFromKeep(a: string, common: nat, stable: nat, i: int, best: int)
    requires common <= |a| && i < common && best >= 0
    requires forall k :: 0 <= k <= i ==> !StrongCut(a, common, stable, k)
    ensures SelectFrom(a, common, stable, i, best) == if best > stable then best else stable
    decreases i
  {
    if i > stable {
      assert !StrongCut(a, common, stable, i);
      SelectFromKeep(a, common, stable, i - 1, best);
    }
  }

  lemma {:induction false} SelectFromStrong(a: string, common: nat, stable: nat, i: int, best: int, k: nat)
    requires common <= |a| && i < common
    requires k <= i && StrongCut(a, common, stable, k)
    requires forall j :: k < j <= i ==> !StrongCut(a, common, stable, j)
    ensures SelectFrom(a, common, stable, i, best) == Boundary(a, k)
    decreases i
  {
    if i > k {
      assert !StrongCut(a, common, stable, i);
      var best' := if best < 0 && Boundary(a, i) - stable >= 30 && common - Boundary(a, i) >= 15
        then Boundary(a, i) else best;
      if (IsStrong(a[i]) || IsWeak(a[i])) && Clean(a, common, i) {
        SelectFromStrong(a, common, stable, i - 1, best', k);
      } else {
        SelectFromStrong(a, common, stable, i - 1, best, k);
      }
    }
  }

  lemma {:induction false} SelectFromWeak(a: string, common: nat, stable: nat, i: int, k: nat)
    requires common <= |a| && i < common
    requires k <= i && WeakCut(a, common, stable, k)
    requires forall j :: 0 <= j <= i ==> !StrongCut(a, common, stable, j)
    requires forall j :: k < j <= i ==> !WeakCut(a, common, stable, j)
    ensures SelectFrom(a, common, stable, i, -1) == Boundary(a, k)
    decreases i
  {
    assert !StrongCut(a, common, stable, i);
    if i > k {
      assert !WeakCut(a, common, stable, i);
      SelectFromWeak(a, common, stable, i - 1, k);
    } else {
      SelectFromKeep(a, common, stable, i - 1, Boundary(a, k));
    }
  }

  lemma {:induction false} SelectFromNone(a: string, common: nat, stable: nat, i: int)
    requires common <= |a| && i < common
    requires forall j :: 0 <= j <= i ==> !StrongCut(a, common, stable, j) && !WeakCut(a, common, stable, j)
    ensures SelectFrom(a, common, stable, i, -1) == stable
    decreases i
  {
    if i > stable {
      assert !StrongCut(a, common, stable, i) && !WeakCut(a, common, stable, i);
      SelectFromNone(a, common, stable, i - 1);
    }
  }

  /**
   * The rightmost strong mark in (stable, common) decides the cut, whatever
   * clause marks lie to its right.
   */
  lemma RightmostStrongWins(a: string, common: nat, stable: nat, k: nat)
    requires common <= |a|
    requires StrongCut(a, common, stable, k)
    requires forall j :: k < j < common ==> !StrongCut(a, common, stable, j)
    ensures SelectCommit(a, common, stable) == Boundary(a, k)
  {
    SelectFromStrong(a, common, stable, common - 1, -1, k);
  }

  /** With no strong mark, the rightmost qualifying clause mark decides the cut. */
  lemma RightmostWeakFallback(a: string, common: nat, stable: nat, k: nat)
    requires common <= |a|
    requires WeakCut(a, common, stable, k)
    requires forall j :: 0 <= j < common ==> !StrongCut(a, common, stable, j)
    requires forall j :: k < j < common ==> !WeakCut(a, common, stable, j)
    ensures SelectCommit(a, common, stable) == Boundary(a, k)
  {
    SelectFromWeak(a, common, stable, common - 1, k);
  }

  /** With neither kind of mark, nothing is committed. */
  lemma NoMarkNoCommit(a: string, common: nat, stable: nat)
    requires common <= |a|
    requires forall j :: 0 <= j < common ==> !StrongCut(a, common, stable, j) && !WeakCut(a, common, stable, j)
    ensures SelectCommit(a, common, stable) == stable
  {
    SelectFromNone(a, common, stable, common - 1);
  }
}
