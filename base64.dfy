/**
 * The base64 decoder of the GUI's TTS timestamp path: the standard alphabet
 * of section 4 of RFC 4648, groups of four symbols, '=' padding counted only
 * in the last two positions.  The shifts and ORs that assemble the 24-bit
 * group act on disjoint bit fields and are written here as sums.
 */
module Base64 {
  import opened Bytes
  import opened Seqs

  /** b64_decode_table: the value of a symbol, or -1. */
  function DecodeValue(c: char): (v: int)
    ensures -1 <= v < 64
  {
    if 'A' <= c <= 'Z' then c as int - 'A' as int
    else if 'a' <= c <= 'z' then c as int - 'a' as int + 26
    else if '0' <= c <= '9' then c as int - '0' as int + 52
    else if c == '+' then 62
    else if c == '/' then 63
    else -1
  }

  /** The alphabet of RFC 4648 section 4. */
  function Symbol(v: int): (c: char)
    requires 0 <= v < 64
    ensures DecodeValue(c) == v && c != '='
  {
    if v < 26 then ('A' as int + v) as char
    else if v < 52 then ('a' as int + v - 26) as char
    else if v < 62 then ('0' as int + v - 52) as char
    else if v == 62 then '+'
    else '/'
  }

  /** The '=' signs in the last two positions. */
  function Pad(s: string): nat
  {
    (if |s| >= 1 && s[|s| - 1] == '=' then 1 else 0) + (if |s| >= 2 && s[|s| - 2] == '=' then 1 else 0)
  }

  /** out_size: three bytes per complete group, less the padding. */
  function OutSize(s: string): int
  {
    (|s| / 4) * 3 - Pad(s)
  }

  /** The 24-bit value of a group; an invalid third or fourth symbol contributes nothing. */
  function Triple(a: int, b: int, c: int, d: int): (v: int)
    requires 0 <= a < 64 && 0 <= b < 64 && -1 <= c < 64 && -1 <= d < 64
    ensures 0 <= v < 0x100_0000
  {
    a * 0x4_0000 + b * 0x1000 + (if c >= 0 then c * 64 else 0) + (if d >= 0 then d else 0)
  }

  function Hi(v: int): byte
    requires 0 <= v < 0x100_0000
  {
    (v / 0x1_0000) % 256
  }

  function Mid(v: int): byte
    requires 0 <= v < 0x100_0000
  {
    (v / 256) % 256
  }

  function Lo(v: int): byte
    requires 0 <= v < 0x100_0000
  {
    v % 256
  }

  /** The bytes one group yields: the first always, the second and third when their symbols are valid. */
  function GroupBytes(a: int, b: int, c: int, d: int): (r: seq<byte>)
    requires 0 <= a < 64 && 0 <= b < 64 && -1 <= c < 64 && -1 <= d < 64
    ensures 1 <= |r| <= 3
  {
    var v := Triple(a, b, c, d);
    [Hi(v)] + (if c >= 0 then [Mid(v)] else []) + (if d >= 0 then [Lo(v)] else [])
  }

  /** Append bytes while the output has room for them. */
  function Put(out: seq<byte>, g: seq<byte>, cap: int): (r: seq<byte>)
    requires |out| <= cap
    ensures |r| <= cap && out <= r
    decreases |g|
  {
    if |g| == 0 || |out| >= cap then out else Put(out + [g[0]], g[1..], cap)
  }

  /** The group loop from index i, with the output so far. */
  function DecodeFrom(s: string, i: nat, out: seq<byte>, cap: int): (r: Option<seq<byte>>)
    requires |out| <= cap
    ensures r.Some? ==> out <= r.value && |r.value| <= cap
    decreases |s| - i
  {
    if i + 3 >= |s| then Some(out)
    else
      var a := DecodeValue(s[i]);
      var b := DecodeValue(s[i + 1]);
      if a < 0 || b < 0 then None
      else DecodeFrom(s, i + 4, Put(out, GroupBytes(a, b, DecodeValue(s[i + 2]), DecodeValue(s[i + 3])), cap), cap)
  }

  /** base64_decode: the decoded bytes, or None for NULL. */
  function Decode(s: string): Option<seq<byte>>
  {
    if OutSize(s) <= 0 then None else DecodeFrom(s, 0, [], OutSize(s))
  }

  /** base64_decode as the GUI runs it. */
  method Base64Decode(b64: string) returns (r: Option<seq<byte>>)
    ensures r == Decode(b64)
  {
    var pad := 0;
    if |b64| >= 1 && b64[|b64| - 1] == '=' { pad := pad + 1; }
    if |b64| >= 2 && b64[|b64| - 2] == '=' { pad := pad + 1; }
    var outSize := (|b64| / 4) * 3 - pad;
    assert outSize == OutSize(b64);
    if outSize <= 0 {
      return None;
    }
    r := DecodeGroups(b64, outSize);
  }

  /** The group loop of base64_decode, into an output of cap bytes. */
  method DecodeGroups(b64: string, cap: nat) returns (r: Option<seq<byte>>)
    ensures r == DecodeFrom(b64, 0, [], cap)
  {
    var out: seq<byte> := [];
    var i: nat := 0;
    while i + 3 < |b64|
      invariant |out| <= cap
      invariant DecodeFrom(b64, i, out, cap) == DecodeFrom(b64, 0, [], cap)
      decreases |b64| - i
    {
      var ok;
      ok, out := DecodeGroup(b64, i, out, cap);
      if !ok {
        return None;
      }
      i := i + 4;
    }
    return Some(out);
  }

  /** One turn of the group loop: the four symbols at i, their 24-bit value, and the capped appends. */
  method DecodeGroup(b64: string, i: nat, out: seq<byte>, cap: int) returns (ok: bool, next: seq<byte>)
    requires i + 3 < |b64| && |out| <= cap
    ensures |next| <= cap
    ensures ok ==> DecodeFrom(b64, i, out, cap) == DecodeFrom(b64, i + 4, next, cap)
    ensures !ok ==> DecodeFrom(b64, i, out, cap) == None
  {
    var a := DecodeValue(b64[i]);
    var b := DecodeValue(b64[i + 1]);
    var c := DecodeValue(b64[i + 2]);
    var d := DecodeValue(b64[i + 3]);
    if a < 0 || b < 0 {
      return false, out;
    }
    var v := a * 0x4_0000 + b * 0x1000;
    if c >= 0 { v := v + c * 64; }
    if d >= 0 { v := v + d; }
    assert v == Triple(a, b, c, d);
    next := out;
    if |next| < cap { next := next + [Hi(v)]; }
    if |next| < cap && c >= 0 { next := next + [Mid(v)]; }
    if |next| < cap && d >= 0 { next := next + [Lo(v)]; }
    PutGroup(out, a, b, c, d, cap);
    ok := true;
  }

  /** The three capped appends of the loop body are one Put of the group. */
  lemma PutGroup(out: seq<byte>, a: int, b: int, c: int, d: int, cap: int)
    requires 0 <= a < 64 && 0 <= b < 64 && -1 <= c < 64 && -1 <= d < 64
    requires |out| <= cap
    ensures var v := Triple(a, b, c, d);
      var o1 := if |out| < cap then out + [Hi(v)] else out;
      var o2 := if |o1| < cap && c >= 0 then o1 + [Mid(v)] else o1;
      var o3 := if |o2| < cap && d >= 0 then o2 + [Lo(v)] else o2;
      o3 == Put(out, GroupBytes(a, b, c, d), cap)
  {
    var v := Triple(a, b, c, d);
    var g := GroupBytes(a, b, c, d);
    var m := if c >= 0 then [Mid(v)] else [];
    var t := if d >= 0 then [Lo(v)] else [];
    assert g == [Hi(v)] + (m + t);
    assert g[1..] == m + t;
    if |out| < cap {
      var o1 := out + [Hi(v)];
      assert Put(out, g, cap) == Put(o1, m + t, cap);
      PutTail(o1, m, t, cap);
    }
  }

  /** Put of at most one byte, then of the rest. */
  lemma PutTail(o: seq<byte>, m: seq<byte>, t: seq<byte>, cap: int)
    requires |o| <= cap && |m| <= 1 && |t| <= 1
    ensures var o2 := if |o| < cap && |m| == 1 then o + m else o;
      Put(o, m + t, cap) == (if |o2| < cap && |t| == 1 then o2 + t else o2)
  {
    if |m| == 1 && |o| < cap {
      assert (m + t)[0] == m[0] && (m + t)[1..] == t;
      assert o + [m[0]] == o + m;
      var o2 := o + m;
      assert Put(o, m + t, cap) == Put(o2, t, cap);
      if |t| == 1 && |o2| < cap {
        assert t[1..] == [];
        assert o2 + [t[0]] == o2 + t;
      }
    } else if |m| == 0 {
      assert m + t == t;
      if |t| == 1 && |o| < cap {
        assert t[1..] == [];
        assert o + [t[0]] == o + t;
      }
    }
  }

  // ---------------------------------------------------------------------
  // Properties
  // ---------------------------------------------------------------------

  /** The output never exceeds (len / 4) * 3 less the padding. */
  lemma DecodeBound(s: string)
    ensures Decode(s).Some? ==> |Decode(s).value| <= OutSize(s)
  {
  }

  /** A group whose first or second symbol is invalid makes the whole decode fail. */
  predicate BadGroup(s: string, i: nat)
  {
    i % 4 == 0 && i + 3 < |s| && (DecodeValue(s[i]) < 0 || DecodeValue(s[i + 1]) < 0)
  }

  lemma {:induction false} DecodeFromFails(s: string, i: nat, out: seq<byte>, cap: int)
    requires |out| <= cap && i % 4 == 0
    ensures DecodeFrom(s, i, out, cap).None? <==> exists k :: i <= k && BadGroup(s, k)
    decreases |s| - i
  {
    if i + 3 >= |s| {
      assert forall k :: i <= k ==> !BadGroup(s, k);
    } else if DecodeValue(s[i]) < 0 || DecodeValue(s[i + 1]) < 0 {
      assert BadGroup(s, i);
    } else {
      var out' := Put(out, GroupBytes(DecodeValue(s[i]), DecodeValue(s[i + 1]), DecodeValue(s[i + 2]), DecodeValue(s[i + 3])), cap);
      DecodeFromFails(s, i + 4, out', cap);
      assert !BadGroup(s, i);
      forall k | i < k < i + 4 ensures !BadGroup(s, k) {
      }
    }
  }

  /** NULL exactly when there is nothing to decode or some group starts with an invalid symbol. */
  lemma DecodeFailsExactly(s: string)
    ensures Decode(s).None? <==> OutSize(s) <= 0 || exists k :: BadGroup(s, k)
  {
    if OutSize(s) > 0 {
      DecodeFromFails(s, 0, [], OutSize(s));
    }
  }

  // ---------------------------------------------------------------------
  // Round trip with the RFC 4648 encoder
  // ---------------------------------------------------------------------

  /** The four 6-bit values of a group of one to three bytes; -1 stands for a '=' position. */
  function Sextets(g: seq<byte>): (r: seq<int>)
    requires 1 <= |g| <= 3
    ensures |r| == 4 && 0 <= r[0] < 64 && 0 <= r[1] < 64 && -1 <= r[2] < 64 && -1 <= r[3] < 64
    ensures (r[2] < 0 <==> |g| == 1) && (r[3] < 0 <==> |g| < 3)
  {
    var x := g[0];
    var y := if |g| >= 2 then g[1] else 0;
    var z := if |g| == 3 then g[2] else 0;
    [x / 4, (x % 4) * 16 + y / 16,
     if |g| >= 2 then (y % 16) * 4 + z / 64 else -1,
     if |g| == 3 then z % 64 else -1]
  }

  /** The 6-bit values of the whole encoding, group by group. */
  function Sext(data: seq<byte>): (r: seq<int>)
    ensures forall k :: 0 <= k < |r| ==> -1 <= r[k] < 64
    decreases |data|
  {
    if |data| == 0 then []
    else if |data| <= 3 then Sextets(data)
    else Sextets(data[..3]) + Sext(data[3..])
  }

  function SymbolOrPad(v: int): (c: char)
    requires -1 <= v < 64
    ensures DecodeValue(c) == v && (c == '=' <==> v < 0)
  {
    if v < 0 then '=' else Symbol(v)
  }

  /** Standard base64 with '=' padding (RFC 4648 section 4). */
  function Encode(data: seq<byte>): (s: string)
  {
    var v := Sext(data);
    seq(|v|, k requires 0 <= k < |v| => SymbolOrPad(v[k]))
  }

  /** The value of the symbols of x, y, z is the three bytes side by side. */
  lemma TripleOfBytes(x: byte, y: byte, z: byte)
    ensures Triple(x / 4, (x % 4) * 16 + y / 16, (y % 16) * 4 + z / 64, z % 64) == x * 0x1_0000 + y * 256 + z
  {
    assert x == 4 * (x / 4) + x % 4;
    assert y == 16 * (y / 16) + y % 16;
    assert z == 64 * (z / 64) + z % 64;
  }

  lemma SplitBytes(x: byte, y: byte, z: byte)
    ensures Hi(x * 0x1_0000 + y * 256 + z) == x
    ensures Mid(x * 0x1_0000 + y * 256 + z) == y
    ensures Lo(x * 0x1_0000 + y * 256 + z) == z
  {
    var v := x * 0x1_0000 + y * 256 + z;
    assert v / 0x1_0000 == x;
    assert v / 256 == x * 256 + y;
  }

  lemma GroupOfThree(x: byte, y: byte, z: byte)
    ensures var r := Sextets([x, y, z]); GroupBytes(r[0], r[1], r[2], r[3]) == [x, y, z]
  {
    TripleOfBytes(x, y, z);
    SplitBytes(x, y, z);
  }

  lemma GroupOfTwo(x: byte, y: byte)
    ensures var r := Sextets([x, y]); GroupBytes(r[0], r[1], r[2], r[3]) == [x, y]
  {
    TripleOfBytes(x, y, 0);
    SplitBytes(x, y, 0);
  }

  lemma GroupOfOne(x: byte)
    ensures var r := Sextets([x]); GroupBytes(r[0], r[1], r[2], r[3]) == [x]
  {
    TripleOfBytes(x, 0, 0);
    SplitBytes(x, 0, 0);
  }

  /** A group's sextets give back its bytes. */
  lemma GroupRoundTrip(g: seq<byte>)
    requires 1 <= |g| <= 3
    ensures var r := Sextets(g); GroupBytes(r[0], r[1], r[2], r[3]) == g
  {
    if |g| == 3 {
      assert g == [g[0], g[1], g[2]];
      GroupOfThree(g[0], g[1], g[2]);
    } else if |g| == 2 {
      assert g == [g[0], g[1]];
      GroupOfTwo(g[0], g[1]);
    } else {
      assert g == [g[0]];
      GroupOfOne(g[0]);
    }
  }

  lemma PutAll(out: seq<byte>, g: seq<byte>, cap: int)
    requires |out| + |g| <= cap
    ensures Put(out, g, cap) == out + g
    decreases |g|
  {
    if |g| > 0 {
      PutAll(out + [g[0]], g[1..], cap);
      assert out + [g[0]] + g[1..] == out + g;
    }
  }

  /** The first group of the sextets, and the rest. */
  lemma SextSplit(data: seq<byte>)
    requires |data| > 0
    ensures var n := if |data| <= 3 then |data| else 3;
      Sext(data) == Sextets(data[..n]) + Sext(data[n..])
  {
    if |data| <= 3 {
      assert data[..|data|] == data;
      assert data[|data|..] == [];
      AppendEmpty(Sextets(data));
    }
  }

  lemma {:induction false} SextLength(data: seq<byte>)
    ensures |Sext(data)| == 4 * ((|data| + 2) / 3)
    decreases |data|
  {
    if |data| > 3 {
      SextLength(data[3..]);
    }
  }

  /** The symbols from i on decode to the values v. */
  predicate DecodesTo(s: string, i: nat, v: seq<int>)
  {
    i + |v| == |s| && forall k :: i <= k < |s| ==> DecodeValue(s[k]) == v[k - i]
  }

  /** Four values decoded at i, and the rest after them. */
  lemma DecodesToSplit(s: string, i: nat, r: seq<int>, t: seq<int>)
    requires |r| == 4 && DecodesTo(s, i, r + t)
    ensures DecodeValue(s[i]) == r[0] && DecodeValue(s[i + 1]) == r[1]
    ensures DecodeValue(s[i + 2]) == r[2] && DecodeValue(s[i + 3]) == r[3]
    ensures DecodesTo(s, i + 4, t)
  {
    assert DecodeValue(s[i]) == (r + t)[0];
    assert DecodeValue(s[i + 1]) == (r + t)[1];
    assert DecodeValue(s[i + 2]) == (r + t)[2];
    assert DecodeValue(s[i + 3]) == (r + t)[3];
    forall k | i + 4 <= k < |s|
      ensures DecodeValue(s[k]) == t[k - (i + 4)]
    {
      assert DecodeValue(s[k]) == (r + t)[k - i];
    }
  }

  /** One encoded group at i: the loop appends its bytes and moves on. */
  lemma DecodeGroupStep(s: string, i: nat, out: seq<byte>, cap: int, g: seq<byte>)
    requires 1 <= |g| <= 3 && i + 4 <= |s|
    requires var r := Sextets(g);
      DecodeValue(s[i]) == r[0] && DecodeValue(s[i + 1]) == r[1]
      && DecodeValue(s[i + 2]) == r[2] && DecodeValue(s[i + 3]) == r[3]
    requires |out| + |g| <= cap
    ensures DecodeFrom(s, i, out, cap) == DecodeFrom(s, i + 4, out + g, cap)
  {
    GroupRoundTrip(g);
    PutAll(out, g, cap);
  }

  lemma AppendSplit(out: seq<byte>, data: seq<byte>, n: nat)
    requires n <= |data|
    ensures out + data[..n] + data[n..] == out + data
  {
    assert data == data[..n] + data[n..];
  }

  /** The group loop over the symbols of an encoding appends the encoded bytes. */
  lemma {:induction false} DecodeFromEncode(data: seq<byte>, s: string, i: nat, out: seq<byte>, cap: int)
    requires DecodesTo(s, i, Sext(data))
    requires |out| + |data| <= cap
    ensures DecodeFrom(s, i, out, cap) == Some(out + data)
    decreases |data|
  {
    if |data| == 0 {
      assert out + data == out;
    } else {
      var n := if |data| <= 3 then |data| else 3;
      var g, rest := data[..n], data[n..];
      SextSplit(data);
      DecodesToSplit(s, i, Sextets(g), Sext(rest));
      DecodeGroupStep(s, i, out, cap, g);
      DecodeFromEncode(rest, s, i + 4, out + g, cap);
      AppendSplit(out, data, n);
    }
  }

  /** Decoding an RFC 4648 encoding gives back the bytes. */
  lemma DecodeEncode(data: seq<byte>)
    requires |data| > 0
    ensures Decode(Encode(data)) == Some(data)
  {
    EncodeOutSize(data);
    assert DecodesTo(Encode(data), 0, Sext(data));
    DecodeFromEncode(data, Encode(data), 0, [], |data|);
    assert [] + data == data;
  }

  /** The length an encoding announces is the length of the bytes encoded. */
  lemma EncodeOutSize(data: seq<byte>)
    requires |data| > 0
    ensures OutSize(Encode(data)) == |data|
  {
    var v := Sext(data);
    var e := Encode(data);
    SextLength(data);
    SextPad(data);
    var k := (|data| + 2) / 3;
    assert |e| / 4 == k;
    assert (e[|e| - 1] == '=') == (v[|v| - 1] < 0);
    assert (e[|e| - 2] == '=') == (v[|v| - 2] < 0);
  }

  /** A last group of one byte has two '=' positions, of two bytes one, of three none. */
  lemma {:induction false} SextPad(data: seq<byte>)
    requires |data| > 0
    ensures var v := Sext(data);
      |v| >= 4 && (if v[|v| - 1] < 0 then 1 else 0) + (if v[|v| - 2] < 0 then 1 else 0) == 3 * ((|data| + 2) / 3) - |data|
    decreases |data|
  {
    SextSplit(data);
    if |data| > 3 {
      var rest := data[3..];
      SextPad(rest);
      var v := Sext(data);
      var t := Sext(rest);
      assert v == Sextets(data[..3]) + t;
      assert v[|v| - 1] == t[|t| - 1] && v[|v| - 2] == t[|t| - 2];
      assert (|data| + 2) / 3 == (|rest| + 2) / 3 + 1;
    } else {
      assert data[..|data|] == data;
    }
  }

  /** Nothing to decode: the empty string gives NULL. */
  lemma DecodeEmpty()
    ensures Decode("") == None
  {
  }
}
