/** Searching and erasing in a vector, as the server's loops do it. */
module Vectors {

  /** Index of the first occurrence of `x`, or the length when there is none. */
  function FirstIndex<T(==)>(s: seq<T>, x: T): nat {
    FirstFrom(s, x, 0)
  }

  function FirstFrom<T(==)>(s: seq<T>, x: T, from: nat): (k: nat)
    requires from <= |s|
    ensures from <= k <= |s|
    ensures k < |s| ==> s[k] == x
    ensures forall l :: from <= l < k ==> s[l] != x
    decreases |s| - from
  {
    if from == |s| || s[from] == x then from else FirstFrom(s, x, from + 1)
  }

  lemma {:induction false} FirstFromIs<T>(s: seq<T>, x: T, from: nat, k: nat)
    requires from <= k <= |s| && (k < |s| ==> s[k] == x) && forall l :: from <= l < k ==> s[l] != x
    ensures FirstFrom(s, x, from) == k
    decreases k - from
  {
    if from < k { FirstFromIs(s, x, from + 1, k); }
  }

  /** The index of the element an erasing loop stops at: the first match, or the last element when nothing matches. */
  function StopIndex<T(==)>(s: seq<T>, x: T): (k: nat)
    requires |s| > 0
    ensures k < |s|
  {
    if FirstIndex(s, x) < |s| then FirstIndex(s, x) else |s| - 1
  }

  /** Index of the last pair that has `x` on either side, or -1. */
  function LastWith<T(==)>(pairs: seq<(T, T)>, x: T): int {
    LastBefore(pairs, x, |pairs|)
  }

  function LastBefore<T(==)>(pairs: seq<(T, T)>, x: T, n: nat): (k: int)
    requires n <= |pairs|
    ensures -1 <= k < n
    ensures k >= 0 ==> pairs[k].0 == x || pairs[k].1 == x
    ensures forall l :: k < l < n ==> pairs[l].0 != x && pairs[l].1 != x
  {
    if n == 0 then -1
    else if pairs[n - 1].0 == x || pairs[n - 1].1 == x then n - 1
    else LastBefore(pairs, x, n - 1)
  }

  function EraseAt<T>(s: seq<T>, k: nat): seq<T>
    requires k < |s|
  {
    s[..k] + s[k + 1..]
  }

  ghost predicate NoRepeats<T>(s: seq<T>) {
    forall k, l :: 0 <= k < l < |s| ==> s[k] != s[l]
  }

  /** What an erasing loop leaves: the vector without the first match, or, with no match, without the last element. */
  lemma ErasedByLoop<T>(s: seq<T>, x: T)
    requires |s| > 0
    ensures
      var k := StopIndex(s, x);
      var r := EraseAt(s, k);
      && (x in s ==> s[k] == x && forall l :: 0 <= l < k ==> s[l] != x)
      && (x !in s ==> k == |s| - 1)
      && |r| == |s| - 1 && forall l :: 0 <= l < |r| ==> r[l] == if l < k then s[l] else s[l + 1]
  {
    if x in s {
      var m :| 0 <= m < |s| && s[m] == x;
      assert FirstIndex(s, x) <= m;
    }
  }
}
