/**
 * Facts about sequence concatenation and slicing, stated for any element
 * type so that the proofs using them do not have to look inside the
 * strings and byte buffers they are about.
 */
module Seqs {
  lemma AppendEmpty<T>(s: seq<T>)
    ensures s + [] == s && [] + s == s
  {
  }

  lemma Assoc<T>(a: seq<T>, b: seq<T>, c: seq<T>)
    ensures (a + b) + c == a + (b + c)
  {
  }

  /** A non-empty sequence is its front and its last element. */
  lemma LastSplit<T>(m: seq<T>)
    requires |m| > 0
    ensures m == m[..|m| - 1] + [m[|m| - 1]]
  {
  }

  /** The prefix one longer is the prefix and one element. */
  lemma PrefixStep<T>(s: seq<T>, i: nat)
    requires i < |s|
    ensures s[..i + 1][..i] == s[..i] && s[..i + 1] == s[..i] + [s[i]]
  {
  }

  /** Moving the first element of t to the end of out. */
  lemma HeadMoved<T>(out: seq<T>, t: seq<T>)
    requires |t| > 0
    ensures out + [t[0]] + t[1..] == out + t
  {
  }

  lemma SliceConcat<T>(t: seq<T>, i: nat, j: nat, k: nat)
    requires i <= j <= k <= |t|
    ensures t[i..j] + t[j..k] == t[i..k]
  {
  }

  lemma SliceRest<T>(t: seq<T>, i: nat, j: nat)
    requires i <= j <= |t|
    ensures t[i..j] + t[j..] == t[i..]
  {
  }

  /** The suffix from i, cut around the element at j. */
  lemma SliceAt<T>(t: seq<T>, i: nat, j: nat)
    requires i <= j < |t|
    ensures t[i..] == t[i..j] + ([t[j]] + t[j + 1..])
  {
  }

  /** A slice holding a + b holds a, then b. */
  lemma SliceParts<T>(s: seq<T>, i: nat, a: seq<T>, b: seq<T>)
    requires i + |a| + |b| <= |s| && s[i..i + |a + b|] == a + b
    ensures s[i..i + |a|] == a && s[i + |a|..i + |a| + |b|] == b
  {
    assert s[i..i + |a|] == (a + b)[..|a|];
    assert s[i + |a|..i + |a| + |b|] == (a + b)[|a|..];
  }

  /** A suffix holding a + b starts with a, then goes on with b. */
  lemma SuffixParts<T>(s: seq<T>, i: nat, a: seq<T>, b: seq<T>)
    requires i <= |s| && s[i..] == a + b
    ensures i + |a| <= |s| && s[i + |a|..] == b
    ensures forall k :: 0 <= k < |a| ==> s[i + k] == a[k]
  {
    assert s[i + |a|..] == (a + b)[|a|..];
    forall k | 0 <= k < |a|
      ensures s[i + k] == a[k]
    {
      assert s[i + k] == (a + b)[k];
    }
  }

  /** An element of a + b is one of a, or one of b. */
  lemma ConcatIndex<T>(a: seq<T>, b: seq<T>, k: nat)
    requires k < |a| + |b|
    ensures (a + b)[k] == if k < |a| then a[k] else b[k - |a|]
  {
  }

  /** memcpy of v into a at i: the bytes before i and after the copy stay as they were. */
  method Write<T>(a: array<T>, i: nat, v: seq<T>)
    requires i + |v| <= a.Length
    modifies a
    ensures a[..i + |v|] == old(a[..i]) + v
    ensures a[i + |v|..] == old(a[i + |v|..])
  {
    var k := 0;
    while k < |v|
      invariant 0 <= k <= |v|
      invariant forall j :: 0 <= j < i ==> a[j] == old(a[j])
      invariant forall j :: 0 <= j < k ==> a[i + j] == v[j]
      invariant forall j :: i + k <= j < a.Length ==> a[j] == old(a[j])
    {
      a[i + k] := v[k];
      k := k + 1;
    }
    assert a[..i + |v|] == old(a[..i]) + v;
  }
}
