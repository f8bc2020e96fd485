/**
 * Bytes and the little-endian integer fields that the WAV code reads and
 * writes, plus the Option type shared by the helpers.
 */
module Bytes {

  type byte = b: int | 0 <= b < 256

  datatype Option<T> = None | Some(value: T)

  /** A value a C `int` can hold. */
  predicate InInt(x: int)
  {
    -0x8000_0000 <= x < 0x8000_0000
  }

  /** A value as a C `int` holds it after two's-complement wrap-around. */
  function Int32(x: int): (r: int)
    ensures InInt(r)
    ensures InInt(x) ==> r == x
    ensures (r - x) % 0x1_0000_0000 == 0
  {
    var m := x % 0x1_0000_0000;
    if m >= 0x8000_0000 then m - 0x1_0000_0000 else m
  }

  /** The length of the C string a byte buffer holds: up to its first NUL. */
  function CLength(s: seq<byte>): (n: nat)
    ensures n <= |s| && (n < |s| ==> s[n] == 0)
    ensures forall k :: 0 <= k < n ==> s[k] != 0
  {
    if |s| == 0 then 0 else if s[0] == 0 then 0 else 1 + CLength(s[1..])
  }

  /** A string all of whose chars stand for single bytes. */
  predicate IsBytes(s: string)
  {
    forall k :: 0 <= k < |s| ==> s[k] as int < 256
  }

  /** The bytes of a byte string. */
  function Lit(s: string): (r: seq<byte>)
    requires IsBytes(s)
    ensures |r| == |s|
    ensures forall k :: 0 <= k < |s| ==> r[k] == s[k] as int
  {
    seq(|s|, k requires 0 <= k < |s| => s[k] as int)
  }

  lemma LitConcat(s: string, t: string)
    requires IsBytes(s) && IsBytes(t)
    ensures IsBytes(s + t) && Lit(s + t) == Lit(s) + Lit(t)
  {
  }

  /** The byte each char of a text stands for (its low eight bits). */
  function OfChars(s: string): (r: seq<byte>)
    ensures |r| == |s|
    ensures IsBytes(s) ==> r == Lit(s)
  {
    seq(|s|, k requires 0 <= k < |s| => (s[k] as int) % 256)
  }

  /** An unsigned 16-bit field, least significant byte first. */
  function LE16(v: int): (r: seq<byte>)
    requires 0 <= v < 0x1_0000
    ensures |r| == 2
  {
    [v % 256, v / 256]
  }

  /** An unsigned 32-bit field, least significant byte first. */
  function LE32(v: int): (r: seq<byte>)
    requires 0 <= v < 0x1_0000_0000
    ensures |r| == 4
  {
    [v % 256, (v / 256) % 256, (v / 256 / 256) % 256, v / 256 / 256 / 256]
  }

  /** A signed 16-bit field in two's complement. */
  function S16(v: int): (r: seq<byte>)
    requires -0x8000 <= v < 0x8000
    ensures |r| == 2
  {
    LE16(if v < 0 then v + 0x1_0000 else v)
  }

  /** Read an unsigned 16-bit field at i. */
  function U16(s: seq<byte>, i: nat): (v: int)
    requires i + 2 <= |s|
    ensures 0 <= v < 0x1_0000
  {
    s[i] as int + 256 * s[i + 1] as int
  }

  /** Read an unsigned 32-bit field at i. */
  function U32(s: seq<byte>, i: nat): (v: int)
    requires i + 4 <= |s|
    ensures 0 <= v < 0x1_0000_0000
  {
    s[i] as int + 256 * s[i + 1] as int + 0x1_0000 * s[i + 2] as int + 0x100_0000 * s[i + 3] as int
  }

  /** Read a signed 16-bit field at i (an `int16_t` load). */
  function I16(s: seq<byte>, i: nat): (v: int)
    requires i + 2 <= |s|
    ensures -0x8000 <= v < 0x8000
  {
    var u := U16(s, i);
    if u >= 0x8000 then u - 0x1_0000 else u
  }

  /** Read a signed 32-bit field at i (an `int32_t` load). */
  function I32(s: seq<byte>, i: nat): (v: int)
    requires i + 4 <= |s|
    ensures -0x8000_0000 <= v < 0x8000_0000
  {
    var u := U32(s, i);
    if u >= 0x8000_0000 then u - 0x1_0000_0000 else u
  }

  /** Reading back a written 16-bit field gives the value written. */
  lemma U16OfLE16(v: int, s: seq<byte>, i: nat)
    requires 0 <= v < 0x1_0000
    requires i + 2 <= |s| && s[i..i + 2] == LE16(v)
    ensures U16(s, i) == v
  {
    assert s[i] == s[i..i + 2][0] && s[i + 1] == s[i..i + 2][1];
  }

  /** Reading back a written 32-bit field gives the value written. */
  lemma U32OfLE32(v: int, s: seq<byte>, i: nat)
    requires 0 <= v < 0x1_0000_0000
    requires i + 4 <= |s| && s[i..i + 4] == LE32(v)
    ensures U32(s, i) == v
  {
    assert s[i] == s[i..i + 4][0] && s[i + 1] == s[i..i + 4][1];
    assert s[i + 2] == s[i..i + 4][2] && s[i + 3] == s[i..i + 4][3];
    var q1 := v / 256;
    var q2 := q1 / 256;
    assert v == v % 256 + 256 * q1;
    assert q1 == q1 % 256 + 256 * q2;
    assert q2 == q2 % 256 + 256 * (q2 / 256);
  }

  /** A signed 16-bit field reads back as the value written. */
  lemma I16OfS16(v: int, s: seq<byte>, i: nat)
    requires -0x8000 <= v < 0x8000
    requires i + 2 <= |s| && s[i..i + 2] == S16(v)
    ensures I16(s, i) == v
  {
    U16OfLE16(if v < 0 then v + 0x1_0000 else v, s, i);
  }

  /** A 32-bit field below 2^31 reads back as the same signed value. */
  lemma I32OfLE32(v: int, s: seq<byte>, i: nat)
    requires 0 <= v < 0x8000_0000
    requires i + 4 <= |s| && s[i..i + 4] == LE32(v)
    ensures I32(s, i) == v
  {
    U32OfLE32(v, s, i);
  }
}
