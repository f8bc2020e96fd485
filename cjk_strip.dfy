/**
 * `strip_cjk` of the GUI: removes the code points U+3000..U+9FFF and
 * U+FF00..U+FF60 from a UTF-8 C string, together with every byte that does
 * not start a whole sequence, and then collapses each run of spaces and
 * tabs into one space.  Both passes work on one buffer of strlen + 1 bytes.
 */
module CjkStrip {
  import opened Bytes
  import opened Utf8
  import opened Seqs

  /** The code points the first pass removes. */
  predicate IsCjk(cp: int)
  {
    0x3000 <= cp <= 0x9FFF || 0xFF00 <= cp <= 0xFF60
  }

  /** A whole sequence starts at i: a byte that can lead, followed by its continuation bytes. */
  predicate WholeAt(s: seq<byte>, i: int)
  {
    ByteAt(s, i) != 0 && LeadLength(ByteAt(s, i)) != 0 && ContsFollow(s, i, LeadLength(ByteAt(s, i)))
  }

  /** A whole sequence is decoded with the length its lead byte announces, and lies inside the C string. */
  lemma WholeWithin(s: seq<byte>, i: nat)
    requires i < CLength(s) && WholeAt(s, i)
    ensures i + LeadLength(s[i]) <= CLength(s)
    ensures NextCp(s, i).0 == LeadLength(s[i])
  {
    var n := LeadLength(s[i]);
    var c := CLength(s);
    assert ByteAt(s, c) == 0;
    if n >= 2 { assert i + 1 != c; }
    if n >= 3 { assert i + 2 != c; }
    if n >= 4 { assert i + 3 != c; }
  }

  /** Up to the terminator, a byte is zero exactly at the terminator. */
  lemma InString(s: seq<byte>, p: nat)
    requires p <= CLength(s)
    ensures ByteAt(s, p) != 0 <==> p < CLength(s)
  {
  }

  /** The n bytes at i of s are the n bytes at j of t (n at most 4). */
  predicate Agree(s: seq<byte>, i: int, t: seq<byte>, j: int, n: nat)
  {
    ByteAt(t, j) == ByteAt(s, i)
    && (n >= 2 ==> ByteAt(t, j + 1) == ByteAt(s, i + 1))
    && (n >= 3 ==> ByteAt(t, j + 2) == ByteAt(s, i + 2))
    && (n >= 4 ==> ByteAt(t, j + 3) == ByteAt(s, i + 3))
  }

  /** NextCp of a whole sequence reads no byte beyond it. */
  lemma Window(s: seq<byte>, i: int, t: seq<byte>, j: int)
    requires WholeAt(s, i) && Agree(s, i, t, j, LeadLength(ByteAt(s, i)))
    ensures WholeAt(t, j) && LeadLength(ByteAt(t, j)) == LeadLength(ByteAt(s, i))
    ensures NextCp(t, j) == NextCp(s, i)
  {
  }

  /** A whole kept sequence in front of kept bytes leaves them kept. */
  lemma KeptCons(x: seq<byte>, rest: seq<byte>)
    requires |x| > 0 && WholeAt(x, 0) && LeadLength(x[0]) == |x| && !IsCjk(NextCp(x, 0).1)
    requires Kept(rest)
    ensures Kept(x + rest)
  {
    assert Agree(x, 0, x + rest, 0, |x|);
    Window(x, 0, x + rest, 0);
    assert (x + rest)[|x|..] == rest;
  }

  // ---------------------------------------------------------------------
  // The first pass: drop CJK code points and bytes that start nothing
  // ---------------------------------------------------------------------

  /** Where the first pass goes on after the byte at i: past a whole sequence, or past one byte. */
  function Skip(s: seq<byte>, i: nat): (k: nat)
    requires i < CLength(s)
    ensures i < k <= CLength(s)
  {
    if WholeAt(s, i) then WholeWithin(s, i); i + LeadLength(s[i]) else i + 1
  }

  /** What the first pass writes for the byte at i: a whole sequence of a kept code point, or nothing. */
  function Head(s: seq<byte>, i: nat): (h: seq<byte>)
    requires i < CLength(s)
    ensures |h| <= Skip(s, i) - i && forall k :: 0 <= k < |h| ==> h[k] != 0
  {
    if WholeAt(s, i) && !IsCjk(NextCp(s, i).1) then s[i..Skip(s, i)] else []
  }

  /** The bytes the first pass keeps from i on. */
  function Filter(s: seq<byte>, i: nat): (r: seq<byte>)
    requires i <= CLength(s)
    ensures |r| <= CLength(s) - i
    ensures forall k :: 0 <= k < |r| ==> r[k] != 0
    decreases CLength(s) - i
  {
    if i == CLength(s) then [] else Head(s, i) + Filter(s, Skip(s, i))
  }

  /** A byte string made of whole sequences of code points the first pass keeps. */
  predicate Kept(t: seq<byte>)
    decreases |t|
  {
    |t| == 0
    || (WholeAt(t, 0) && LeadLength(t[0]) <= |t| && !IsCjk(NextCp(t, 0).1) && Kept(t[LeadLength(t[0])..]))
  }

  /** The first pass yields whole sequences of kept code points only. */
  lemma {:induction false} FilterKept(s: seq<byte>, i: nat)
    requires i <= CLength(s)
    ensures Kept(Filter(s, i))
    decreases CLength(s) - i
  {
    if i < CLength(s) {
      var k := Skip(s, i);
      FilterKept(s, k);
      var x := Head(s, i);
      if x != [] {
        WholeWithin(s, i);
        assert Agree(s, i, x, 0, |x|);
        Window(s, i, x, 0);
        KeptCons(x, Filter(s, k));
      } else {
        assert Filter(s, i) == Filter(s, k);
      }
    }
  }

  /** What the first pass keeps, it keeps unchanged. */
  lemma KeptFixed(t: seq<byte>, i: nat)
    requires forall k :: 0 <= k < |t| ==> t[k] != 0
    requires i <= |t| && Kept(t[i..])
    ensures CLength(t) == |t| && Filter(t, i) == t[i..]
  {
    if CLength(t) < |t| { assert false; }
    KeptInPlace(t, i);
    KeptFilter(t, i);
  }

  /** Kept, read in place: whole kept sequences from i to the end of t. */
  predicate KeptAt(t: seq<byte>, i: nat)
    decreases |t| - i
  {
    i >= |t|
    || (WholeAt(t, i) && i + LeadLength(t[i]) <= |t| && !IsCjk(NextCp(t, i).1) && KeptAt(t, i + LeadLength(t[i])))
  }

  lemma {:induction false} KeptInPlace(t: seq<byte>, i: nat)
    requires i <= |t| && Kept(t[i..])
    ensures KeptAt(t, i)
    decreases |t| - i
  {
    if i < |t| {
      var u := t[i..];
      var n := LeadLength(u[0]);
      assert Agree(u, 0, t, i, n);
      Window(u, 0, t, i);
      assert u[n..] == t[i + n..];
      KeptInPlace(t, i + n);
    }
  }

  lemma {:induction false} KeptFilter(t: seq<byte>, i: nat)
    requires CLength(t) == |t| && i <= |t| && KeptAt(t, i)
    ensures Filter(t, i) == t[i..]
    decreases |t| - i
  {
    if i < |t| {
      var n := LeadLength(t[i]);
      WholeWithin(t, i);
      assert Skip(t, i) == i + n && Head(t, i) == t[i..i + n];
      KeptFilter(t, i + n);
      SliceRest(t, i, i + n);
    }
  }

  /** Running the first pass again changes nothing. */
  lemma FilterIdempotent(s: seq<byte>)
    ensures var r := Filter(s, 0); CLength(r) == |r| && Filter(r, 0) == r
  {
    var r := Filter(s, 0);
    FilterKept(s, 0);
    assert r[0..] == r;
    KeptFixed(r, 0);
  }

  /** The lead byte's payload bits. */
  function LeadPayload(b: byte, n: nat): int
  {
    if n == 1 then b else if n == 2 then b % 32 else if n == 3 then b % 16 else b % 8
  }

  /** The code point the decoding loop holds after reading bytes p .. p+i-1. */
  function Acc(s: seq<byte>, p: int, n: nat, i: nat): int
    requires i >= 1
  {
    if i == 1 then LeadPayload(ByteAt(s, p), n) else Acc(s, p, n, i - 1) * 64 + ByteAt(s, p + i - 1) % 64
  }

  /** The loop's accumulated value is the code point NextCp decodes. */
  lemma AccDecodes(s: seq<byte>, p: int)
    requires WholeAt(s, p)
    ensures Acc(s, p, LeadLength(ByteAt(s, p)), LeadLength(ByteAt(s, p))) == NextCp(s, p).1
  {
    var n := LeadLength(ByteAt(s, p));
    var l := LeadPayload(ByteAt(s, p), n);
    var b1, b2, b3 := ByteAt(s, p + 1) % 64, ByteAt(s, p + 2) % 64, ByteAt(s, p + 3) % 64;
    assert Acc(s, p, n, 1) == l;
    if n >= 2 { assert Acc(s, p, n, 2) == l * 64 + b1; }
    if n >= 3 { assert Acc(s, p, n, 3) == (l * 64 + b1) * 64 + b2; }
    if n == 3 {
      assert (l * 64 + b1) * 64 + b2 == l * 0x1000 + b1 * 64 + b2;
    } else if n == 4 {
      assert ((l * 64 + b1) * 64 + b2) * 64 + b3 == l * 0x4_0000 + b1 * 0x1000 + b2 * 64 + b3;
    }
  }

  /**
   * The decoding step of the first pass at p: whether a whole sequence
   * starts there, its length and its code point.
   */
  method DecodeAt(s: seq<byte>, p: int) returns (bytes: int, cp: int, valid: bool)
    requires ByteAt(s, p) != 0
    ensures valid <==> WholeAt(s, p)
    ensures valid ==> bytes == LeadLength(ByteAt(s, p)) && cp == NextCp(s, p).1
  {
    var b := ByteAt(s, p);
    if b < 0x80 { cp, bytes := b as int, 1; }
    else if 0xC0 <= b < 0xE0 { cp, bytes := (b % 32) as int, 2; }
    else if 0xE0 <= b < 0xF0 { cp, bytes := (b % 16) as int, 3; }
    else if 0xF0 <= b < 0xF8 { cp, bytes := (b % 8) as int, 4; }
    else { return 0, 0, false; }
    valid := true;
    var i := 1;
    while i < bytes
      invariant 1 <= i <= bytes && bytes == LeadLength(b)
      invariant valid ==> cp == Acc(s, p, bytes, i)
      invariant valid <==> ContsFollow(s, p, i)
    {
      if !IsCont(ByteAt(s, p + i)) { valid := false; break; }
      cp := cp * 64 + ByteAt(s, p + i) as int % 64;
      i := i + 1;
    }
    assert valid <==> ContsFollow(s, p, bytes);
    if valid { AccDecodes(s, p); }
  }

  /** One step of the first pass at p: writes what it keeps at j and moves on. */
  method FilterStep(text: seq<byte>, p: nat, out: array<byte>, j: nat) returns (next: nat, j': nat)
    requires p < CLength(text) && j <= p && CLength(text) < out.Length
    modifies out
    ensures next == Skip(text, p) && j' <= next
    ensures out[..j'] == old(out[..j]) + Head(text, p)
  {
    var bytes, cp, valid := DecodeAt(text, p);
    next, j' := p + 1, j;
    if valid {
      WholeWithin(text, p);
      if !IsCjk(cp) {
        Write(out, j, text[p..p + bytes]);
        j' := j + bytes;
      }
      next := p + bytes;
    }
  }

  /** The first pass: writes the kept bytes and their terminator into out. */
  method FilterPass(text: seq<byte>, out: array<byte>) returns (j: int)
    requires out.Length > CLength(text)
    modifies out
    ensures 0 <= j < out.Length && out[..j] == Filter(text, 0) && out[j] == 0
  {
    j := 0;
    var p := 0;
    ghost var written: seq<byte> := [];
    while ByteAt(text, p) != 0
      invariant p <= CLength(text) && 0 <= j <= p
      invariant out[..j] == written && written + Filter(text, p) == Filter(text, 0)
      decreases |text| - p
    {
      InString(text, p);
      ghost var h := Head(text, p);
      ghost var rest := Filter(text, Skip(text, p));
      assert Filter(text, p) == h + rest;
      Assoc(written, h, rest);
      written := written + h;
      p, j := FilterStep(text, p, out, j);
    }
    InString(text, p);
    AppendEmpty(written);
    out[j] := 0;
    assert out[..j] == written;
  }

  // ---------------------------------------------------------------------
  // The second pass: collapse runs of spaces and tabs
  // ---------------------------------------------------------------------

  predicate IsBlank(b: byte) { b == 0x20 || b == 0x09 }

  /** The bytes the second pass writes from i on; prev says the byte before was a blank. */
  function CollapseFrom(t: seq<byte>, i: nat, prev: bool): (r: seq<byte>)
    requires i <= |t|
    ensures |r| <= |t| - i
    decreases |t| - i
  {
    if i == |t| then []
    else if IsBlank(t[i]) then (if prev then [] else [0x20]) + CollapseFrom(t, i + 1, true)
    else [t[i]] + CollapseFrom(t, i + 1, false)
  }

  function Collapse(t: seq<byte>): seq<byte>
  {
    CollapseFrom(t, 0, false)
  }

  /** No tab and no two spaces in a row. */
  predicate NoRuns(r: seq<byte>)
  {
    (forall k :: 0 <= k < |r| ==> r[k] != 0x09)
    && (forall k :: 0 <= k < |r| - 1 ==> !(r[k] == 0x20 && r[k + 1] == 0x20))
  }

  /** The bytes other than spaces and tabs, in order. */
  function NonBlank(t: seq<byte>): seq<byte>
  {
    if |t| == 0 then [] else (if IsBlank(t[0]) then [] else [t[0]]) + NonBlank(t[1..])
  }

  /** The output of the second pass has no tab and no double space, and does not start with a space after a blank. */
  lemma {:induction false} CollapseNoRuns(t: seq<byte>, i: nat, prev: bool)
    requires i <= |t|
    ensures var r := CollapseFrom(t, i, prev);
      NoRuns(r) && (prev && |r| > 0 ==> r[0] != 0x20)
    decreases |t| - i
  {
    if i < |t| {
      var r := CollapseFrom(t, i, prev);
      var rest := CollapseFrom(t, i + 1, IsBlank(t[i]));
      CollapseNoRuns(t, i + 1, IsBlank(t[i]));
      if !IsBlank(t[i]) {
        assert r == [t[i]] + rest;
        NoRunsCons(t[i], rest);
      } else if !prev {
        assert r == [0x20] + rest;
        NoRunsCons(0x20, rest);
      } else {
        assert r == rest;
      }
    }
  }

  /** A byte put in front of a text without runs keeps it so, unless it starts a new one. */
  lemma NoRunsCons(h: byte, rest: seq<byte>)
    requires NoRuns(rest) && h != 0x09 && (h == 0x20 && |rest| > 0 ==> rest[0] != 0x20)
    ensures NoRuns([h] + rest)
  {
    var r := [h] + rest;
    assert forall k :: 1 <= k < |r| ==> r[k] == rest[k - 1];
  }

  /** The second pass keeps every byte that is not a blank, in order. */
  lemma {:induction false} CollapseKeepsText(t: seq<byte>, i: nat, prev: bool)
    requires i <= |t|
    ensures NonBlank(CollapseFrom(t, i, prev)) == NonBlank(t[i..])
    decreases |t| - i
  {
    if i < |t| {
      CollapseKeepsText(t, i + 1, IsBlank(t[i]));
      var r := CollapseFrom(t, i, prev);
      var rest := CollapseFrom(t, i + 1, IsBlank(t[i]));
      assert t[i..][1..] == t[i + 1..];
      if IsBlank(t[i]) && prev {
        assert r == rest;
      } else {
        assert r[1..] == rest;
      }
    }
  }

  /** A text without tabs or double spaces passes the second pass unchanged. */
  lemma {:induction false} CollapseFixed(t: seq<byte>, i: nat, prev: bool)
    requires i <= |t| && NoRuns(t)
    requires prev && i < |t| ==> t[i] != 0x20
    requires prev ==> 0 < i && IsBlank(t[i - 1])
    ensures CollapseFrom(t, i, prev) == t[i..]
    decreases |t| - i
  {
    if i < |t| {
      if prev { assert t[i - 1] == 0x20; }
      CollapseFixed(t, i + 1, IsBlank(t[i]));
      assert t[i..] == [t[i]] + t[i + 1..];
    }
  }

  /** Running the second pass again changes nothing. */
  lemma CollapseIdempotent(t: seq<byte>)
    ensures Collapse(Collapse(t)) == Collapse(t)
  {
    var r := Collapse(t);
    CollapseNoRuns(t, 0, false);
    CollapseFixed(r, 0, false);
  }

  /** A run of n bytes with no blank among them passes the second pass as it is. */
  lemma {:induction false} CollapseSolid(t: seq<byte>, i: nat, n: nat, prev: bool)
    requires 1 <= n && i + n <= |t|
    requires forall k :: i <= k < i + n ==> !IsBlank(t[k])
    ensures CollapseFrom(t, i, prev) == t[i..i + n] + CollapseFrom(t, i + n, false)
    decreases n
  {
    assert CollapseFrom(t, i, prev) == [t[i]] + CollapseFrom(t, i + 1, false);
    if n > 1 {
      CollapseSolid(t, i + 1, n - 1, false);
      assert t[i..i + n] == [t[i]] + t[i + 1..i + n];
      Assoc([t[i]], t[i + 1..i + n], CollapseFrom(t, i + n, false));
    } else {
      assert t[i..i + 1] == [t[i]];
    }
  }

  /** No byte of t is zero. */
  predicate NoZero(t: seq<byte>)
  {
    forall k :: 0 <= k < |t| ==> t[k] != 0
  }

  /** The second pass writes no zero byte into a text that has none. */
  lemma {:induction false} CollapseNonZero(t: seq<byte>, i: nat, prev: bool)
    requires i <= |t| && NoZero(t)
    ensures NoZero(CollapseFrom(t, i, prev))
    decreases |t| - i
  {
    if i < |t| {
      CollapseNonZero(t, i + 1, IsBlank(t[i]));
    }
  }

  /** A space in front of kept bytes leaves them kept. */
  lemma SpaceKept(rest: seq<byte>)
    requires Kept(rest)
    ensures Kept([0x20] + rest)
  {
    assert ByteAt([0x20], 0) == 0x20;
    assert NextCp([0x20], 0).1 == 0x20;
    KeptCons([0x20], rest);
  }

  /** The n bytes of the whole sequence at the head of a kept t[i..] are not blanks, and they form a kept sequence. */
  lemma SolidHead(t: seq<byte>, i: nat)
    requires i < |t| && Kept(t[i..]) && !IsBlank(t[i])
    ensures 1 <= LeadLength(t[i]) && i + LeadLength(t[i]) <= |t|
    ensures forall k :: i <= k < i + LeadLength(t[i]) ==> !IsBlank(t[k])
    ensures WholeAt(t[i..i + LeadLength(t[i])], 0) && !IsCjk(NextCp(t[i..i + LeadLength(t[i])], 0).1)
  {
    var u := t[i..];
    var n := LeadLength(u[0]);
    forall k | i <= k < i + n
      ensures !IsBlank(t[k])
    {
      if k > i { assert IsCont(ByteAt(u, k - i)); }
    }
    var x := t[i..i + n];
    assert Agree(u, 0, x, 0, n);
    Window(u, 0, x, 0);
  }

  /**
   * The second pass keeps whole kept sequences whole: a blank is a
   * one-byte sequence and becomes a space or nothing, and the bytes of a
   * longer sequence are never blanks.
   */
  lemma {:induction false} CollapseKept(t: seq<byte>, i: nat, prev: bool)
    requires i <= |t| && Kept(t[i..])
    ensures Kept(CollapseFrom(t, i, prev))
    decreases |t| - i
  {
    if i < |t| {
      KeptTail(t, i);
      if IsBlank(t[i]) {
        CollapseKept(t, i + 1, true);
        BlankKept(t, i, prev);
      } else {
        SolidHead(t, i);
        CollapseKept(t, i + LeadLength(t[i]), false);
        SolidKept(t, i, prev);
      }
    } else {
      assert CollapseFrom(t, i, prev) == [];
    }
  }

  /** A blank writes a space or nothing in front of kept output. */
  lemma BlankKept(t: seq<byte>, i: nat, prev: bool)
    requires i < |t| && IsBlank(t[i]) && Kept(CollapseFrom(t, i + 1, true))
    ensures Kept(CollapseFrom(t, i, prev))
  {
    var rest := CollapseFrom(t, i + 1, true);
    if prev {
      assert CollapseFrom(t, i, prev) == rest;
    } else {
      SpaceKept(rest);
      assert CollapseFrom(t, i, prev) == [0x20] + rest;
    }
  }

  /** A whole kept sequence without blanks is written unchanged in front of kept output. */
  lemma SolidKept(t: seq<byte>, i: nat, prev: bool)
    requires i < |t| && 1 <= LeadLength(t[i]) && i + LeadLength(t[i]) <= |t|
    requires forall k :: i <= k < i + LeadLength(t[i]) ==> !IsBlank(t[k])
    requires WholeAt(t[i..i + LeadLength(t[i])], 0) && !IsCjk(NextCp(t[i..i + LeadLength(t[i])], 0).1)
    requires Kept(CollapseFrom(t, i + LeadLength(t[i]), false))
    ensures Kept(CollapseFrom(t, i, prev))
  {
    var n := LeadLength(t[i]);
    CollapseSolid(t, i, n, prev);
    KeptCons(t[i..i + n], CollapseFrom(t, i + n, false));
  }

  /** Past the whole sequence at the head of a kept t[i..], the rest is kept. */
  lemma KeptTail(t: seq<byte>, i: nat)
    requires i < |t| && Kept(t[i..])
    ensures 1 <= LeadLength(t[i]) && i + LeadLength(t[i]) <= |t| && Kept(t[i + LeadLength(t[i])..])
    ensures IsBlank(t[i]) ==> LeadLength(t[i]) == 1
  {
    assert t[i..][LeadLength(t[i])..] == t[i + LeadLength(t[i])..];
  }

  /** What the second pass writes for the byte c, given whether a blank came just before. */
  function Emitted(c: byte, prev: bool): seq<byte>
  {
    if IsBlank(c) then (if prev then [] else [0x20]) else [c]
  }

  /** One step of the second pass at i, seen from the bytes written so far. */
  lemma CollapseStep(t: seq<byte>, i: nat, prev: bool, written: seq<byte>)
    requires i < |t|
    ensures written + CollapseFrom(t, i, prev) == (written + Emitted(t[i], prev)) + CollapseFrom(t, i + 1, IsBlank(t[i]))
  {
    assert CollapseFrom(t, i, prev) == Emitted(t[i], prev) + CollapseFrom(t, i + 1, IsBlank(t[i]));
    Assoc(written, Emitted(t[i], prev), CollapseFrom(t, i + 1, IsBlank(t[i])));
  }

  /** The second pass, in place over out[..n]; returns the new length. */
  method CollapsePass(out: array<byte>, n: int) returns (m: int)
    requires 0 <= n < out.Length && out[n] == 0
    requires forall k :: 0 <= k < n ==> out[k] != 0
    modifies out
    ensures 0 <= m <= n && out[..m] == Collapse(old(out[..n])) && out[m] == 0
  {
    ghost var t := out[..n];
    var src, dst, prevSpace := 0, 0, false;
    ghost var written: seq<byte> := [];
    while out[src] != 0
      invariant 0 <= dst <= src <= n && out[n] == 0
      invariant forall k :: src <= k < n ==> out[k] == t[k]
      invariant out[..dst] == written && written + CollapseFrom(t, src, prevSpace) == Collapse(t)
      decreases n - src
    {
      var c := out[src];
      var blank := c == 0x20 || c == 0x09;
      assert c == t[src];
      CollapseStep(t, src, prevSpace, written);
      ghost var e := Emitted(c, prevSpace);
      // a blank after a blank writes nothing; any other byte writes itself, a blank as a space
      if !(blank && prevSpace) {
        var x: byte := if blank then 0x20 else c;
        out[dst] := x;
        assert e == [x];
        assert out[..dst + 1] == written + e;
        dst := dst + 1;
      } else {
        assert e == [];
        AppendEmpty(written);
      }
      prevSpace := blank;
      written := out[..dst];
      src := src + 1;
    }
    assert src == n;
    ghost var r := out[..dst];
    out[dst] := 0;
    assert out[..dst] == r;
    m := dst;
  }

  /** What strip_cjk returns for a C string. */
  function StripCjkText(text: seq<byte>): seq<byte>
  {
    Collapse(Filter(text, 0))
  }

  /** strip_cjk: a buffer of strlen + 1 bytes holding the result and its terminator. */
  method StripCjk(text: seq<byte>) returns (out: array<byte>, n: int)
    ensures fresh(out) && out.Length == CLength(text) + 1
    ensures 0 <= n < out.Length && out[..n] == StripCjkText(text) && out[n] == 0
  {
    out := new byte[CLength(text) + 1];
    var j := FilterPass(text, out);
    n := CollapsePass(out, j);
  }

  /**
   * The result holds no CJK code point: it is made of whole kept sequences
   * and blanks alone change, and a tab or a double space never survives.
   */
  lemma StripCjkFacts(text: seq<byte>)
    ensures var f := Filter(text, 0); var r := StripCjkText(text);
      && Kept(f) && NoRuns(r) && NonBlank(r) == NonBlank(f) && Collapse(r) == r
      && Kept(r) && StripCjkText(r) == r
  {
    var f := Filter(text, 0);
    var r := StripCjkText(text);
    FilterKept(text, 0);
    CollapseNoRuns(f, 0, false);
    CollapseKeepsText(f, 0, false);
    assert f[0..] == f;
    CollapseIdempotent(f);
    CollapseKept(f, 0, false);
    CollapseNonZero(f, 0, false);
    assert r[0..] == r;
    KeptFixed(r, 0);
  }
}
