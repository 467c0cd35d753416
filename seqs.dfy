/**
 * Sequence and set helpers: distinctness, the first-occurrence deduplication
 * of `[...new Set(xs)]`, and the sizes of nested sets.
 */
module Seqs {

  /** No element occurs twice. */
  predicate Distinct<T(==)>(s: seq<T>) {
    forall i, j :: 0 <= i < j < |s| ==> s[i] != s[j]
  }

  /** The elements of `s` not in `seen`, each kept at its first occurrence. */
  function DedupFrom<T(==,!new)>(s: seq<T>, seen: set<T>): (r: seq<T>)
    ensures Distinct(r)
    ensures forall x :: x in r <==> x in s && x !in seen
    decreases |s|
  {
    if s == [] then []
    else if s[0] in seen then DedupFrom(s[1..], seen)
    else
      var tail := DedupFrom(s[1..], seen + {s[0]});
      [s[0]] + tail
  }

  /** `[...new Set(s)]`: the distinct elements of `s` in order of first occurrence. */
  function Dedup<T(==,!new)>(s: seq<T>): (r: seq<T>)
    ensures Distinct(r)
    ensures forall x :: x in r <==> x in s
    ensures |r| <= |s|
  {
    DedupLength(s, {});
    DedupFrom(s, {})
  }

  lemma {:induction false} DedupLength<T(!new)>(s: seq<T>, seen: set<T>)
    ensures |DedupFrom(s, seen)| <= |s|
    decreases |s|
  {
    if s != [] {
      if s[0] in seen {
        DedupLength(s[1..], seen);
      } else {
        DedupLength(s[1..], seen + {s[0]});
      }
    }
  }

  /** A sequence without repeats is left as it is by deduplication. */
  lemma {:induction false} DedupDistinct<T(!new)>(s: seq<T>, seen: set<T>)
    requires Distinct(s)
    requires forall x :: x in s ==> x !in seen
    ensures DedupFrom(s, seen) == s
    decreases |s|
  {
    if s != [] {
      DedupDistinct(s[1..], seen + {s[0]});
    }
  }

  /** An element repeated at two positions occurs at least twice. */
  lemma RepeatCounts<T>(s: seq<T>, i: nat, j: nat)
    requires i < j < |s| && s[i] == s[j]
    ensures multiset(s)[s[i]] >= 2
  {
    assert s == s[..j] + s[j..];
    assert s[i] == s[..j][i];
    assert s[j] == s[j..][0];
    assert s[i] in multiset(s[..j]) && s[j] in multiset(s[j..]);
  }

  /** In a sequence without repeats, every element occurs once. */
  lemma {:induction false} DistinctCounts<T>(s: seq<T>, y: T)
    requires Distinct(s)
    ensures multiset(s)[y] <= 1
    decreases |s|
  {
    if s != [] {
      var t := s[1..];
      assert s == [s[0]] + t;
      assert Distinct(t);
      DistinctCounts(t, y);
    }
  }

  /** A permutation of a sequence without repeats has no repeats. */
  lemma PermutationKeepsDistinct<T>(a: seq<T>, b: seq<T>)
    requires Distinct(a) && multiset(a) == multiset(b)
    ensures Distinct(b)
  {
    forall i, j | 0 <= i < j < |b| ensures b[i] != b[j] {
      if b[i] == b[j] {
        RepeatCounts(b, i, j);
        DistinctCounts(a, b[i]);
      }
    }
  }

  /** A subset is no larger than the set that holds it. */
  lemma {:induction false} SubsetNoLarger<T>(a: set<T>, b: set<T>)
    requires a <= b
    ensures |a| <= |b|
    decreases |a|
  {
    if a != {} {
      var x :| x in a;
      SubsetNoLarger(a - {x}, b - {x});
    }
  }

  /** A proper subset is strictly smaller. */
  lemma ProperSubsetSmaller<T>(a: set<T>, b: set<T>)
    requires a <= b && a != b
    ensures |a| < |b|
  {
    var x :| x in b && x !in a;
    SubsetNoLarger(a, b - {x});
  }
}
