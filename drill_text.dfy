/**
 * The code point logic of the pronunciation drill: which code points are
 * stripped from the ends of a recognised sentence (`is_strip_cp`,
 * `strip_codepoints`) and which characters count as the same sound
 * (`homophones_match` over the homophone table).
 */
module DrillText {

  /** is_strip_cp: ASCII controls and space, `. , ! ? ;`, and the CJK punctuation and quotes. */
  predicate IsStripCp(cp: int)
  {
    cp <= 0x20
    || cp == '.' as int || cp == ',' as int || cp == '!' as int || cp == '?' as int || cp == ';' as int
    || cp == 0x3002 || cp == 0xFF0C || cp == 0xFF01 || cp == 0xFF1F || cp == 0x3001 || cp == 0xFF1B
    || cp == 0x2026 || cp == 0x300A || cp == 0x300B || cp == 0x201C || cp == 0x201D
    || cp == 0x2018 || cp == 0x2019
  }

  /** The first index at or after i that holds no strip code point. */
  function StripStart(s: seq<int>, i: nat): (k: nat)
    requires i <= |s|
    ensures i <= k <= |s| && (k < |s| ==> !IsStripCp(s[k]))
    ensures forall m :: i <= m < k ==> IsStripCp(s[m])
    decreases |s| - i
  {
    if i < |s| && IsStripCp(s[i]) then StripStart(s, i + 1) else i
  }

  /** The end of s[start..e] once strip code points are dropped from its right. */
  function StripEnd(s: seq<int>, start: nat, e: nat): (k: nat)
    requires start <= e <= |s|
    ensures start <= k <= e && (k > start ==> !IsStripCp(s[k - 1]))
    ensures forall m :: k <= m < e ==> IsStripCp(s[m])
    decreases e
  {
    if e > start && IsStripCp(s[e - 1]) then StripEnd(s, start, e - 1) else e
  }

  /** What strip_codepoints leaves: s without strip code points at either end. */
  function Stripped(s: seq<int>): seq<int>
  {
    var a := StripStart(s, 0);
    s[a..StripEnd(s, a, |s|)]
  }

  /**
   * The stripped sequence is a contiguous slice with only strip code points
   * cut on its left and right, and it starts and ends with a kept one.
   */
  lemma StrippedSlice(s: seq<int>)
    ensures |Stripped(s)| <= |s|
    ensures exists a, b ::
      && 0 <= a <= b <= |s| && Stripped(s) == s[a..b]
      && (forall m :: 0 <= m < a ==> IsStripCp(s[m]))
      && (forall m :: b <= m < |s| ==> IsStripCp(s[m]))
    ensures |Stripped(s)| > 0 ==> !IsStripCp(Stripped(s)[0]) && !IsStripCp(Stripped(s)[|Stripped(s)| - 1])
  {
    var a := StripStart(s, 0);
    var b := StripEnd(s, a, |s|);
    assert Stripped(s) == s[a..b];
  }

  /** Stripping twice strips nothing more. */
  lemma StrippedIdempotent(s: seq<int>)
    ensures Stripped(Stripped(s)) == Stripped(s)
  {
    var r := Stripped(s);
    StrippedSlice(s);
    if |r| > 0 {
      assert StripStart(r, 0) == 0;
      assert StripEnd(r, 0, |r|) == |r|;
    }
    assert r[0..|r|] == r;
  }

  /** The shift of strip_codepoints: cps[start..start+len] moves to the front. */
  method ShiftDown(cps: array<int>, start: nat, len: nat)
    requires start + len <= cps.Length
    modifies cps
    ensures cps[..len] == old(cps[start..start + len])
    ensures cps[len..] == old(cps[len..])
  {
    var i := 0;
    while i < len
      invariant 0 <= i <= len
      invariant cps[..i] == old(cps[start..start + i])
      invariant cps[i..] == old(cps[i..])
    {
      cps[i] := cps[start + i];
      assert cps[..i + 1] == cps[..i] + [old(cps[start + i])];
      i := i + 1;
    }
  }

  /** strip_codepoints: trims cps[..count] in place and returns the new count. */
  method StripCodepoints(cps: array<int>, count: int) returns (n: int)
    requires 0 <= count <= cps.Length
    modifies cps
    ensures 0 <= n <= count
    ensures cps[..n] == Stripped(old(cps[..count]))
    ensures cps[n..] == old(cps[n..])
  {
    var s := cps[..count];
    var start, end := TrimBounds(s);
    if start > 0 {
      ShiftDown(cps, start, end - start);
    }
    n := end - start;
  }

  /** The two scans of strip_codepoints: start past leading strip code points, end before trailing ones. */
  method TrimBounds(s: seq<int>) returns (start: nat, end: nat)
    ensures start <= end <= |s| && Stripped(s) == s[start..end]
  {
    start, end := 0, |s|;
    while start < end && IsStripCp(s[start])
      invariant start <= end == |s|
      invariant StripStart(s, start) == StripStart(s, 0)
    {
      start := start + 1;
    }
    while end > start && IsStripCp(s[end - 1])
      invariant start <= end <= |s|
      invariant StripEnd(s, start, end) == StripEnd(s, start, |s|)
    {
      end := end - 1;
    }
  }

  /**
   * The homophone groups: characters within one group sound the same.
   * The table's zero terminators become the lengths of the rows.
   */
  const Homophones: seq<seq<int>> := [
    [0x4ED6, 0x5979, 0x5B83],          // ta1: he, she, it
    [0x7684, 0x5730, 0x5F97],          // de
    [0x4EEC],
    [0x8FD9, 0x9019],                  // zhe4
    [0x90A3, 0x5462],                  // na4
    [0x5417, 0x5440, 0x561B, 0x55CE],  // ma
    [0x4E86, 0x4E86],                  // le
    [0x662F, 0x4E8B],                  // shi4
    [0x5728, 0x518D],                  // zai4
    [0x51E0, 0x5E7E],                  // ji3
    [0x70B9, 0x9EDE],                  // dian3
    [0x91CC, 0x88E1, 0x88CF],          // li3
    [0x597D],                          // hao3
    [0x60F3, 0x76F8],                  // xiang
    [0x56FD, 0x570B, 0x8FC7, 0x904E],  // guo
    [0x90FD],                          // dou1
    [0x4E3A, 0x70BA],                  // wei
    [0x4EC0, 0x751A],                  // shen2
    [0x4E48, 0x9EBC, 0x9EBD],          // me
    [0x4F1A, 0x6703],                  // hui4
    [0x65C5],                          // lv3
    [0x6E38, 0x904A]                   // you2
  ]

  /** Two code points are the same, or share a homophone group. */
  predicate SameSound(a: int, b: int)
  {
    a == b || exists g :: 0 <= g < |Homophones| && a in Homophones[g] && b in Homophones[g]
  }

  /** homophones_match: a scan of the table, group by group. */
  method HomophonesMatch(a: int, b: int) returns (r: bool)
    ensures r <==> SameSound(a, b)
  {
    if a == b { return true; }
    var g := 0;
    while g < |Homophones|
      invariant g <= |Homophones|
      invariant forall h :: 0 <= h < g ==> !(a in Homophones[h] && b in Homophones[h])
    {
      var row := Homophones[g];
      var foundA, foundB := false, false;
      var i := 0;
      while i < |row|
        invariant i <= |row|
        invariant foundA <==> a in row[..i]
        invariant foundB <==> b in row[..i]
      {
        assert row[..i + 1] == row[..i] + [row[i]];
        if row[i] == a { foundA := true; }
        if row[i] == b { foundB := true; }
        i := i + 1;
      }
      assert row[..i] == row;
      if foundA && foundB { return true; }
      g := g + 1;
    }
    return false;
  }

  /** Every character sounds like itself. */
  lemma SameSoundReflexive(a: int)
    ensures SameSound(a, a)
  {
  }

  /** The relation does not depend on the order of its arguments. */
  lemma SameSoundSymmetric(a: int, b: int)
    ensures SameSound(a, b) == SameSound(b, a)
  {
  }
}
