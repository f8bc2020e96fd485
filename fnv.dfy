/**
 * `fnv1a`, the 32-bit FNV-1a hash the GUI names its grouping cache files
 * by: offset basis 2166136261, prime 16777619, one xor and one multiply
 * modulo 2^32 per byte of a C string.
 */
module Fnv {
  import opened Bytes

  const OffsetBasis: bv32 := 2166136261
  const Prime: bv32 := 16777619

  /** One round: xor in the byte, then multiply by the prime, wrapping at 32 bits. */
  function Round(h: bv32, b: byte): bv32
  {
    (h ^ (b as bv32)) * Prime
  }

  /** The hash state after feeding bs to state h, first byte first. */
  function Feed(h: bv32, bs: seq<byte>): bv32
    decreases |bs|
  {
    if |bs| == 0 then h else Feed(Round(h, bs[0]), bs[1..])
  }

  /** The hash of a byte string. */
  function Fnv1a(bs: seq<byte>): bv32
  {
    Feed(OffsetBasis, bs)
  }

  /** Feeding a concatenation is feeding its parts in turn. */
  lemma {:induction false} FeedAppend(h: bv32, a: seq<byte>, b: seq<byte>)
    ensures Feed(h, a + b) == Feed(Feed(h, a), b)
    decreases |a|
  {
    if |a| == 0 {
      assert a + b == b;
    } else {
      assert (a + b)[1..] == a[1..] + b;
      FeedAppend(Round(h, a[0]), a[1..], b);
    }
  }

  lemma FeedSnoc(h: bv32, a: seq<byte>, b: byte)
    ensures Feed(h, a + [b]) == Round(Feed(h, a), b)
  {
    FeedAppend(h, a, [b]);
  }

  /** fnv1a as the GUI runs it: the hash of the bytes before the terminator. */
  method HashCString(s: seq<byte>) returns (h: bv32)
    ensures h == Fnv1a(s[..CLength(s)])
  {
    h := OffsetBasis;
    var i := 0;
    while i < |s| && s[i] != 0
      invariant i <= CLength(s)
      invariant h == Feed(OffsetBasis, s[..i])
    {
      var b := s[i];
      FeedSnoc(OffsetBasis, s[..i], b);
      assert s[..i + 1] == s[..i] + [b];
      h := Round(h, b);
      i := i + 1;
    }
  }

  /** The published FNV-1a test vectors for "" and "a". */
  lemma KnownVectors()
    ensures Fnv1a([]) == 0x811C_9DC5
    ensures Fnv1a([0x61]) == 0xE40C_292C
  {
    assert Fnv1a([0x61]) == Round(OffsetBasis, 0x61);
  }
}
