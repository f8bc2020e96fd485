/**
 * The drill's UTF-8 codec (section 3 of RFC 3629, without the rejection of
 * overlong forms or surrogates): `utf8_next_cp` decodes one code point of
 * a C string, `cp_to_utf8` encodes one, and `utf8_to_codepoints` decodes a
 * whole string into a bounded code point buffer.
 */
module Utf8 {
  import opened Bytes

  /** The byte at i of a C string; the terminator and beyond read as 0. */
  function ByteAt(s: seq<byte>, i: int): byte
  {
    if 0 <= i < |s| then s[i] else 0
  }

  predicate IsCont(b: byte) { 0x80 <= b < 0xC0 }

  /** The length of the sequence a lead byte announces: 1 to 4, or 0 for a byte that cannot lead. */
  function LeadLength(b: byte): (n: nat)
    ensures n <= 4
  {
    if b < 0x80 then 1
    else if 0xC0 <= b < 0xE0 then 2
    else if 0xE0 <= b < 0xF0 then 3
    else if 0xF0 <= b < 0xF8 then 4
    else 0
  }

  /** The bytes i+1 .. i+n-1 are all continuation bytes. */
  predicate ContsFollow(s: seq<byte>, i: int, n: nat)
  {
    (n >= 2 ==> IsCont(ByteAt(s, i + 1)))
    && (n >= 3 ==> IsCont(ByteAt(s, i + 2)))
    && (n >= 4 ==> IsCont(ByteAt(s, i + 3)))
  }

  /** Bytes consumed and code point decoded at i; (0, 0) at the terminator. */
  function NextCp(s: seq<byte>, i: int): (r: (nat, int))
    ensures r.0 <= 4
    ensures r.0 == 0 <==> ByteAt(s, i) == 0
    ensures r.0 == 0 ==> r.1 == 0
  {
    var b0 := ByteAt(s, i);
    var b1 := ByteAt(s, i + 1);
    var b2 := ByteAt(s, i + 2);
    var b3 := ByteAt(s, i + 3);
    if b0 == 0 then (0, 0)
    else if b0 < 0x80 then (1, b0)
    else if 0xC0 <= b0 < 0xE0 then
      if !IsCont(b1) then (1, 0xFFFD)
      else (2, (b0 % 32) * 64 + b1 % 64)
    else if 0xE0 <= b0 < 0xF0 then
      if !IsCont(b1) || !IsCont(b2) then (1, 0xFFFD)
      else (3, (b0 % 16) * 0x1000 + (b1 % 64) * 64 + b2 % 64)
    else if 0xF0 <= b0 < 0xF8 then
      if !IsCont(b1) || !IsCont(b2) || !IsCont(b3) then (1, 0xFFFD)
      else (4, (b0 % 8) * 0x4_0000 + (b1 % 64) * 0x1000 + (b2 % 64) * 64 + b3 % 64)
    else (1, 0xFFFD)
  }

  /**
   * A multi-byte result is a whole well-formed sequence; a byte that cannot
   * lead, or a lead without its continuation bytes, yields U+FFFD and
   * consumes exactly one byte.
   */
  lemma NextCpShape(s: seq<byte>, i: int)
    ensures NextCp(s, i).0 >= 2 ==> NextCp(s, i).0 == LeadLength(ByteAt(s, i)) && ContsFollow(s, i, NextCp(s, i).0)
    ensures ByteAt(s, i) != 0 && (LeadLength(ByteAt(s, i)) == 0 || !ContsFollow(s, i, LeadLength(ByteAt(s, i))))
      ==> NextCp(s, i) == (1, 0xFFFD)
  {
  }

  /** The continuation byte carrying bits k*6 .. k*6+5 of cp. */
  function Cont(cp: int, k: nat): (b: byte)
    ensures IsCont(b)
  {
    var d := if k == 0 then 1 else if k == 1 then 64 else 0x1000;
    0x80 + (cp / d) % 64
  }

  /**
   * The bytes cp_to_utf8 writes: one below 0x80 (the low byte of cp, as the
   * unsigned char cast keeps it), two below 0x800, three below 0x10000,
   * four otherwise, the lead byte keeping only what fits its payload.
   */
  function EncodeCp(cp: int): (e: seq<byte>)
    ensures |e| == (if cp < 0x80 then 1 else if cp < 0x800 then 2 else if cp < 0x1_0000 then 3 else 4)
  {
    if cp < 0x80 then [cp % 256]
    else if cp < 0x800 then [0xC0 + cp / 64, Cont(cp, 0)]
    else if cp < 0x1_0000 then [0xE0 + cp / 0x1000, Cont(cp, 1), Cont(cp, 0)]
    else [0xF0 + (cp / 0x4_0000) % 16, Cont(cp, 2), Cont(cp, 1), Cont(cp, 0)]
  }

  /** cp_to_utf8: writes the encoding at the start of buf and returns its length. */
  method CpToUtf8(cp: int, buf: array<byte>) returns (n: int)
    requires buf.Length >= 4
    modifies buf
    ensures n == |EncodeCp(cp)| && buf[..n] == EncodeCp(cp)
    ensures buf[n..] == old(buf[n..])
  {
    if cp < 0x80 {
      buf[0] := cp % 256;
      return 1;
    }
    if cp < 0x800 {
      buf[0] := 0xC0 + cp / 64;
      buf[1] := 0x80 + cp % 64;
      return 2;
    }
    if cp < 0x1_0000 {
      buf[0] := 0xE0 + cp / 0x1000;
      buf[1] := 0x80 + (cp / 64) % 64;
      buf[2] := 0x80 + cp % 64;
      return 3;
    }
    buf[0] := 0xF0 + (cp / 0x4_0000) % 16;
    buf[1] := 0x80 + (cp / 0x1000) % 64;
    buf[2] := 0x80 + (cp / 64) % 64;
    buf[3] := 0x80 + cp % 64;
    return 4;
  }

  /** The low twelve bits of cp as two six-bit groups. */
  lemma SplitLow(cp: int)
    requires 0 <= cp
    ensures cp == (cp / 0x1000) * 0x1000 + ((cp / 64) % 64) * 64 + cp % 64
  {
    var q := cp / 64;
    assert cp == q * 64 + cp % 64;
    assert q == (q / 64) * 64 + q % 64;
    assert q / 64 == cp / 0x1000;
  }

  lemma SplitHigh(cp: int)
    requires 0 <= cp
    ensures cp == (cp / 0x4_0000) * 0x4_0000 + ((cp / 0x1000) % 64) * 0x1000 + ((cp / 64) % 64) * 64 + cp % 64
  {
    SplitLow(cp);
    var q := cp / 0x1000;
    assert q == (q / 64) * 64 + q % 64;
    assert q / 64 == cp / 0x4_0000;
  }

  /** The bytes at i..i+|e| of s are e. */
  lemma BytesAt(s: seq<byte>, i: nat, e: seq<byte>)
    requires i + |e| <= |s| && s[i..i + |e|] == e
    ensures forall k :: 0 <= k < |e| ==> ByteAt(s, i + k) == e[k]
  {
    forall k | 0 <= k < |e| ensures ByteAt(s, i + k) == e[k] {
      assert s[i..i + |e|][k] == s[i + k];
    }
  }

  lemma DecodeTwo(cp: int, s: seq<byte>, i: nat)
    requires 0x80 <= cp < 0x800
    requires ByteAt(s, i) == 0xC0 + cp / 64 && ByteAt(s, i + 1) == Cont(cp, 0)
    ensures NextCp(s, i) == (2, cp)
  {
  }

  lemma DecodeThree(cp: int, s: seq<byte>, i: nat)
    requires 0x800 <= cp < 0x1_0000
    requires ByteAt(s, i) == 0xE0 + cp / 0x1000
    requires ByteAt(s, i + 1) == Cont(cp, 1) && ByteAt(s, i + 2) == Cont(cp, 0)
    ensures NextCp(s, i) == (3, cp)
  {
    SplitLow(cp);
  }

  /** A continuation byte keeps its six payload bits. */
  lemma ContBits(cp: int, k: nat)
    ensures Cont(cp, k) % 64 == (cp / (if k == 0 then 1 else if k == 1 then 64 else 0x1000)) % 64
  {
  }

  /** NextCp on a well-formed four-byte sequence. */
  lemma NextFour(s: seq<byte>, i: nat)
    requires 0xF0 <= ByteAt(s, i) < 0xF8
    requires IsCont(ByteAt(s, i + 1)) && IsCont(ByteAt(s, i + 2)) && IsCont(ByteAt(s, i + 3))
    ensures NextCp(s, i) == (4, (ByteAt(s, i) % 8) * 0x4_0000 + (ByteAt(s, i + 1) % 64) * 0x1000
                                + (ByteAt(s, i + 2) % 64) * 64 + ByteAt(s, i + 3) % 64)
  {
  }

  lemma DecodeFour(cp: int, s: seq<byte>, i: nat)
    requires 0x1_0000 <= cp <= 0x10_FFFF
    requires ByteAt(s, i) == 0xF0 + (cp / 0x4_0000) % 16
    requires ByteAt(s, i + 1) == Cont(cp, 2) && ByteAt(s, i + 2) == Cont(cp, 1) && ByteAt(s, i + 3) == Cont(cp, 0)
    ensures NextCp(s, i) == (4, cp)
  {
    var q := cp / 0x4_0000;
    assert q < 8 && ByteAt(s, i) % 8 == q;
    ContBits(cp, 0);
    ContBits(cp, 1);
    ContBits(cp, 2);
    NextFour(s, i);
    SplitHigh(cp);
  }

  /**
   * Decoding the bytes cp_to_utf8 wrote gives back cp, consuming exactly
   * the bytes written.
   */
  lemma DecodeEncode(cp: int, s: seq<byte>, i: nat)
    requires 1 <= cp <= 0x10_FFFF
    requires i + |EncodeCp(cp)| <= |s| && s[i..i + |EncodeCp(cp)|] == EncodeCp(cp)
    ensures NextCp(s, i) == (|EncodeCp(cp)|, cp)
  {
    var e := EncodeCp(cp);
    BytesAt(s, i, e);
    if cp >= 0x1_0000 {
      assert ByteAt(s, i + 3) == e[3];
      DecodeFour(cp, s, i);
    } else if cp >= 0x800 {
      assert ByteAt(s, i + 2) == e[2];
      DecodeThree(cp, s, i);
    } else if cp >= 0x80 {
      assert ByteAt(s, i + 1) == e[1];
      DecodeTwo(cp, s, i);
    } else {
      assert ByteAt(s, i) == e[0];
    }
  }

  /** The code points decoded from i, at most max of them, stopping at the terminator. */
  function Codepoints(s: seq<byte>, i: nat, max: int): (cps: seq<int>)
    ensures |cps| <= if max < 0 then 0 else max
    decreases |s| - i
  {
    if max <= 0 || ByteAt(s, i) == 0 then []
    else [NextCp(s, i).1] + Codepoints(s, i + NextCp(s, i).0, max - 1)
  }

  /** Decoding at i sees the same bytes in s and in the C string s holds. */
  lemma NextCpPrefix(s: seq<byte>, i: nat)
    requires i < CLength(s)
    ensures NextCp(s, i) == NextCp(s[..CLength(s)], i)
  {
    var t := s[..CLength(s)];
    assert ByteAt(s, i) == ByteAt(t, i);
    assert i + 1 < CLength(s) ==> ByteAt(s, i + 1) == ByteAt(t, i + 1);
    assert i + 2 < CLength(s) ==> ByteAt(s, i + 2) == ByteAt(t, i + 2);
    assert i + 3 < CLength(s) ==> ByteAt(s, i + 3) == ByteAt(t, i + 3);
    assert ByteAt(s, CLength(s)) == 0 && ByteAt(t, CLength(s)) == 0;
  }

  /** utf8_to_codepoints stops at the first NUL: only the C string counts. */
  lemma {:induction false} CodepointsStopAtNul(s: seq<byte>, i: nat, max: int)
    requires i <= CLength(s)
    ensures Codepoints(s, i, max) == Codepoints(s[..CLength(s)], i, max)
    decreases |s| - i
  {
    var t := s[..CLength(s)];
    if i == CLength(s) {
      assert ByteAt(s, i) == 0 && ByteAt(t, i) == 0;
    } else if max > 0 {
      NextCpPrefix(s, i);
      assert ByteAt(s, i) != 0;
      CodepointsStopAtNul(s, i + NextCp(s, i).0, max - 1);
    }
  }

  /** One decoding step of the loop below. */
  lemma CodepointsStep(s: seq<byte>, p: nat, m: int, done: seq<int>)
    requires m > 0 && ByteAt(s, p) != 0
    ensures done + Codepoints(s, p, m) == (done + [NextCp(s, p).1]) + Codepoints(s, p + NextCp(s, p).0, m - 1)
  {
  }

  /** utf8_to_codepoints: fills cps[..count] and returns count. */
  method Utf8ToCodepoints(s: seq<byte>, cps: array<int>, maxCps: int) returns (count: int)
    requires maxCps <= cps.Length
    modifies cps
    ensures 0 <= count <= cps.Length
    ensures cps[..count] == Codepoints(s, 0, maxCps)
    ensures cps[count..] == old(cps[count..])
  {
    count := 0;
    var p := 0;
    while ByteAt(s, p) != 0 && count < maxCps
      invariant 0 <= count <= cps.Length && (count <= maxCps || count == 0)
      invariant cps[..count] + Codepoints(s, p, maxCps - count) == Codepoints(s, 0, maxCps)
      invariant cps[count..] == old(cps[count..])
      decreases |s| - p
    {
      var r := NextCp(s, p);
      ghost var done := cps[..count];
      CodepointsStep(s, p, maxCps - count, done);
      cps[count] := r.1;
      count := count + 1;
      assert cps[..count] == done + [r.1];
      p := p + r.0;
    }
    assert cps[..count] + [] == cps[..count];
  }
}
