/** Facts about sequences used for column lists and row lists. */
module Sequences {

  predicate Distinct<T(==)>(s: seq<T>)
  {
    forall i, j :: 0 <= i < j < |s| ==> s[i] != s[j]
  }

  /** `a` is obtained from `b` by deleting elements, keeping their order. */
  predicate Subsequence<T(==)>(a: seq<T>, b: seq<T>)
    decreases |b|
  {
    if a == [] then true
    else if b == [] then false
    else (a[0] == b[0] && Subsequence(a[1..], b[1..])) || Subsequence(a, b[1..])
  }

  /** The elements of `s` that do not occur in `excluded`, in the order of
      `s`: Python's `[x for x in s if x not in excluded]`. */
  function Without<T(==,!new)>(s: seq<T>, excluded: seq<T>): (r: seq<T>)
    ensures forall x :: x in r <==> x in s && x !in excluded
    ensures Subsequence(r, s)
    ensures Distinct(s) ==> Distinct(r)
    decreases |s|
  {
    if s == [] then []
    else if s[0] in excluded then Without(s[1..], excluded)
    else [s[0]] + Without(s[1..], excluded)
  }

  /** `s` after an assignment to the entry named `x`: unchanged when `x` is
      already there, `x` appended otherwise. */
  function Extend<T(==,!new)>(s: seq<T>, x: T): (r: seq<T>)
    ensures forall y :: y in r <==> y in s || y == x
    ensures Distinct(s) ==> Distinct(r)
    ensures x in s ==> r == s
    ensures x !in s ==> |r| == |s| + 1 && r[..|s|] == s
  {
    if x in s then s else s + [x]
  }

  /** Extending a sequence keeps every prefix of it. */
  lemma ExtendKeepsPrefix<T(!new)>(p: seq<T>, s: seq<T>, x: T)
    requires |p| <= |s| && s[..|p|] == p
    ensures |p| <= |Extend(s, x)| && Extend(s, x)[..|p|] == p
  {
  }

  /** Excluding elements that do not occur leaves `s` as it is. */
  lemma {:induction false} WithoutNothing<T(!new)>(s: seq<T>, excluded: seq<T>)
    requires forall x :: x in s ==> x !in excluded
    ensures Without(s, excluded) == s
    decreases |s|
  {
    if s != [] {
      WithoutNothing(s[1..], excluded);
    }
  }

  /** Only the membership of the elements of `s` in the exclusion list
      matters. */
  lemma {:induction false} WithoutSameExclusions<T(!new)>(s: seq<T>, e1: seq<T>, e2: seq<T>)
    requires forall x :: x in s ==> (x in e1 <==> x in e2)
    ensures Without(s, e1) == Without(s, e2)
    decreases |s|
  {
    if s != [] {
      WithoutSameExclusions(s[1..], e1, e2);
    }
  }
}
