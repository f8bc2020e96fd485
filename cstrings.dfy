/**
 * The C library calls the parsers rely on (`strstr`, `strchr`, `atoi`,
 * `strncpy` into a fixed field), stated over the content of a C string:
 * a `string` whose chars stand for bytes and hold no NUL.
 */
module CStrings {

  /** The content of a C string: no NUL before the terminator. */
  predicate NoNul(s: string)
  {
    forall k :: 0 <= k < |s| ==> s[k] != '\0'
  }

  /** The byte at i of a C string: its NUL terminator, and beyond, reads as NUL. */
  function At(s: string, i: int): char
  {
    if 0 <= i < |s| then s[i] else '\0'
  }

  /** pat occurs in s at k. */
  predicate Occurs(s: string, pat: string, k: nat)
  {
    k + |pat| <= |s| && s[k..k + |pat|] == pat
  }

  /** `strstr(s + from, pat)` as an index into s, or -1 for NULL. */
  function Find(s: string, pat: string, from: nat): (r: int)
    ensures r == -1 || (from <= r && Occurs(s, pat, r))
    decreases |s| - from
  {
    if from + |pat| > |s| then -1
    else if s[from..from + |pat|] == pat then from
    else Find(s, pat, from + 1)
  }

  /** strstr finds the first occurrence: none lies before the result, and none at all when it fails. */
  lemma {:induction false} FindFirst(s: string, pat: string, from: nat)
    ensures Find(s, pat, from) == -1 ==> forall k :: from <= k ==> !Occurs(s, pat, k)
    ensures Find(s, pat, from) >= 0 ==> forall k :: from <= k < Find(s, pat, from) ==> !Occurs(s, pat, k)
    decreases |s| - from
  {
    if from + |pat| <= |s| && s[from..from + |pat|] != pat {
      FindFirst(s, pat, from + 1);
    }
  }

  /** `strchr(s + from, c)` as an index into s, or -1 for NULL. */
  function FindChar<T(==)>(s: seq<T>, c: T, from: nat): (r: int)
    ensures r == -1 || (from <= r < |s| && s[r] == c)
    ensures r == -1 ==> forall k :: from <= k < |s| ==> s[k] != c
    ensures r >= 0 ==> forall k :: from <= k < r ==> s[k] != c
    decreases |s| - from
  {
    if from >= |s| then -1
    else if s[from] == c then from
    else FindChar(s, c, from + 1)
  }

  /** isspace() in the C locale. */
  predicate IsCSpace(c: char)
  {
    c == ' ' || c == '\t' || c == '\n' || c == '\r' || c == '\U{B}' || c == '\U{C}'
  }

  predicate IsDigit(c: char) { '0' <= c <= '9' }

  /** The value of the run of decimal digits at i, accumulated onto acc. */
  function DigitsFrom(s: string, i: nat, acc: int): int
    decreases |s| - i
  {
    if i < |s| && IsDigit(s[i]) then DigitsFrom(s, i + 1, acc * 10 + (s[i] as int - '0' as int))
    else acc
  }

  /** The first index at or after i that is not C white space. */
  function SkipCSpace(s: string, i: nat): (j: nat)
    ensures i <= j && (i <= |s| ==> j <= |s|)
    decreases |s| - i
  {
    if i < |s| && IsCSpace(s[i]) then SkipCSpace(s, i + 1) else i
  }

  /** `atoi(s + i)`: white space, an optional sign, then decimal digits. */
  function Atoi(s: string, i: nat): int
  {
    var j := SkipCSpace(s, i);
    if j < |s| && s[j] == '-' then -DigitsFrom(s, j + 1, 0)
    else if j < |s| && s[j] == '+' then DigitsFrom(s, j + 1, 0)
    else DigitsFrom(s, j, 0)
  }

  /** `strncpy` into a field of n bytes followed by `field[n - 1] = 0`: at most n - 1 bytes survive. */
  function Truncate<T>(s: seq<T>, n: nat): (t: seq<T>)
    requires n >= 1
    ensures |t| < n && t <= s
    ensures |s| < n ==> t == s
  {
    if |s| < n then s else s[..n - 1]
  }
}
