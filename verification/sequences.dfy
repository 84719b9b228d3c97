/**
 Generic facts about sequences used by the storefront model: duplicate-free
 sequences, the position of a value's first occurrence, and `Distinct`, which
 keeps the first occurrence of every value in order. `Distinct` is how the
 model reads JavaScript's `Array.from(new Set(xs))`: a `Set` iterates in
 insertion order, and inserting a value that is already present changes
 nothing.
 */
module Sequences {

  /** No value occurs twice in `s`. */
  predicate NoDuplicates<T(==)>(s: seq<T>) {
    forall i, j :: 0 <= i < j < |s| ==> s[i] != s[j]
  }

  /** The index of the first occurrence of `x` in `s`. */
  function FirstIndex<T(==)>(s: seq<T>, x: T): (k: nat)
    requires x in s
    ensures k < |s| && s[k] == x
    ensures forall i :: 0 <= i < k ==> s[i] != x
  {
    if s[0] == x then 0 else 1 + FirstIndex(s[1..], x)
  }

  /** Number of occurrences of `x` in `s`. */
  function Occurrences<T(==)>(s: seq<T>, x: T): nat {
    if |s| == 0 then 0
    else Occurrences(s[..|s| - 1], x) + (if s[|s| - 1] == x then 1 else 0)
  }

  /**
   The values of `s` in order of first occurrence, each exactly once. Built
   from the left, one insertion at a time, as a JavaScript `Set` is.
   */
  function Distinct<T(==)>(s: seq<T>): (r: seq<T>)
    ensures forall i :: 0 <= i < |r| ==> r[i] in s
    ensures forall i :: 0 <= i < |s| ==> s[i] in r
    ensures NoDuplicates(r)
    ensures |r| <= |s|
  {
    if |s| == 0 then []
    else
      var d := Distinct(s[..|s| - 1]);
      var last := s[|s| - 1];
      assert s == s[..|s| - 1] + [last];
      if last in d then d else d + [last]
  }

  /** Appending a value already seen leaves `Distinct` unchanged; a new one goes at the end. */
  lemma DistinctSnoc<T>(s: seq<T>, x: T)
    ensures Distinct(s + [x]) == if x in s then Distinct(s) else Distinct(s) + [x]
  {
    assert (s + [x])[..|s + [x]| - 1] == s;
  }

  /** A value's first occurrence in a prefix is its first occurrence in the whole sequence. */
  lemma {:induction false} FirstIndexPrefix<T>(s: seq<T>, k: nat, x: T)
    requires k <= |s|
    requires x in s[..k]
    ensures FirstIndex(s, x) == FirstIndex(s[..k], x)
    ensures FirstIndex(s, x) < k
  {
    if s[0] != x {
      assert s[..k][1..] == s[1..][..k - 1];
      FirstIndexPrefix(s[1..], k - 1, x);
    }
  }

  /** A value absent from all earlier positions first occurs at its own position. */
  lemma FirstIndexOfNew<T>(s: seq<T>, k: nat)
    requires k < |s|
    requires s[k] !in s[..k]
    ensures FirstIndex(s, s[k]) == k
  {
  }

  /**
   `Distinct` lists values in strictly increasing order of first occurrence,
   so together with its contract it is the duplicate-free, same-values,
   first-occurrence-ordered sequence.
   */
  lemma {:induction false} DistinctFirstOccurrenceOrder<T>(s: seq<T>)
    ensures forall i, j :: 0 <= i < j < |Distinct(s)| ==>
              FirstIndex(s, Distinct(s)[i]) < FirstIndex(s, Distinct(s)[j])
  {
    if |s| > 0 {
      var n := |s| - 1;
      var p := s[..n];
      var d := Distinct(p);
      var r := Distinct(s);
      assert r == if s[n] in d then d else d + [s[n]];
      DistinctFirstOccurrenceOrder(p);
      forall i, j | 0 <= i < j < |r|
        ensures FirstIndex(s, r[i]) < FirstIndex(s, r[j])
      {
        assert r[i] == d[i] && r[i] in p;
        FirstIndexPrefix(s, n, r[i]);
        if j < |d| {
          assert r[j] == d[j] && r[j] in p;
          FirstIndexPrefix(s, n, r[j]);
        } else {
          FirstIndexOfNew(s, n);
        }
      }
    }
  }

  /** `a` can be obtained from `b` by deleting elements: it keeps `b`'s relative order. */
  predicate IsSubsequence<T(==)>(a: seq<T>, b: seq<T>)
    decreases |b|
  {
    if |a| == 0 then true
    else if |b| == 0 then false
    else if a[0] == b[0] then IsSubsequence(a[1..], b[1..])
    else IsSubsequence(a, b[1..])
  }

  lemma {:induction false} SubsequenceReflexive<T>(s: seq<T>)
    ensures IsSubsequence(s, s)
    decreases |s|
  {
    if |s| > 0 {
      SubsequenceReflexive(s[1..]);
    }
  }
}
