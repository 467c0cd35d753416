/**
 * The JavaScript string and array primitives the core is built on:
 * `startsWith`, `endsWith`, `split` with a string separator, `join`,
 * `slice(0, n)` and the stable `sort((a, b) => b.length - a.length)`.
 */
module Strings {
  import opened Seqs

  /** `s.startsWith(prefix)` */
  predicate StartsWith(s: string, prefix: string) {
    |prefix| <= |s| && s[..|prefix|] == prefix
  }

  /** `s.endsWith(suffix)` */
  predicate EndsWith(s: string, suffix: string) {
    |suffix| <= |s| && s[|s| - |suffix|..] == suffix
  }

  /** `sep` occurs in `s` starting at index `j`. */
  predicate Occurs(s: string, sep: string, j: int) {
    0 <= j && j + |sep| <= |s| && s[j..j + |sep|] == sep
  }

  /** No occurrence of `sep` starts anywhere in `s`. */
  predicate Free(s: string, sep: string) {
    forall j | 0 <= j <= |s| :: !Occurs(s, sep, j)
  }

  /** `s.indexOf(sep, from)`: the first occurrence at or after `from`, or -1. */
  function FindFrom(s: string, sep: string, from: nat): (r: int)
    requires |sep| > 0
    ensures r == -1 || (from <= r && r + |sep| <= |s|)
    decreases |s| - from
  {
    if from + |sep| > |s| then -1
    else if s[from..from + |sep|] == sep then from
    else FindFrom(s, sep, from + 1)
  }

  /** What `FindFrom` finds is an occurrence, and no occurrence comes before it. */
  lemma {:induction false} FindFromFirst(s: string, sep: string, from: nat)
    requires |sep| > 0
    ensures var r := FindFrom(s, sep, from);
      (r == -1 || Occurs(s, sep, r)) &&
      forall j :: from <= j && (r == -1 || j < r) ==> !Occurs(s, sep, j)
    decreases |s| - from
  {
    if from + |sep| <= |s| && s[from..from + |sep|] != sep {
      FindFromFirst(s, sep, from + 1);
    }
  }

  /** `s.split(sep)` for a non-empty separator: the pieces between the occurrences found left to right. */
  function Split(s: string, sep: string): (parts: seq<string>)
    requires |sep| > 0
    ensures |parts| >= 1
    decreases |s|
  {
    var i := FindFrom(s, sep, 0);
    if i == -1 then [s] else [s[..i]] + Split(s[i + |sep|..], sep)
  }

  /** `parts.join(sep)` */
  function Join(parts: seq<string>, sep: string): string {
    if |parts| == 0 then ""
    else if |parts| == 1 then parts[0]
    else parts[0] + sep + Join(parts[1..], sep)
  }

  /** `s.slice(0, n)` */
  function Take<T>(s: seq<T>, n: nat): seq<T> {
    if n >= |s| then s else s[..n]
  }

  /** The decimal digits of `n`, as `String(n)` prints a non-negative integer. */
  function NatToString(n: nat): (r: string)
    ensures |r| >= 1
    decreases n
  {
    if n < 10 then ["0123456789"[n]] else NatToString(n / 10) + ["0123456789"[n % 10]]
  }

  /** The number of `/`-separated segments of a path, `path.split("/").length`. */
  function SegmentCount(path: string): nat {
    |Split(path, "/")|
  }

  /** Joining a non-empty list after a first piece puts one separator between them. */
  lemma JoinCons(head: string, tail: seq<string>, sep: string)
    requires |tail| >= 1
    ensures Join([head] + tail, sep) == head + sep + Join(tail, sep)
  {
    assert ([head] + tail)[1..] == tail;
  }

  /** A string is the part before an occurrence, the separator and the part after it. */
  lemma AroundOccurrence(s: string, sep: string, i: int)
    requires Occurs(s, sep, i)
    ensures s == s[..i] + sep + s[i + |sep|..]
  {
    assert s[i..] == s[i..i + |sep|] + s[i + |sep|..];
    assert s == s[..i] + s[i..];
  }

  /** Joining the pieces of a split gives back the string. */
  lemma {:induction false} JoinSplit(s: string, sep: string)
    requires |sep| > 0
    ensures Join(Split(s, sep), sep) == s
    decreases |s|
  {
    var i := FindFrom(s, sep, 0);
    if i != -1 {
      var head, rest := s[..i], s[i + |sep|..];
      JoinSplit(rest, sep);
      JoinCons(head, Split(rest, sep), sep);
      FindFromFirst(s, sep, 0);
      AroundOccurrence(s, sep, i);
    }
  }

  /**
   * A string made of two pieces around one separator splits back into those
   * two pieces, when the separator occurs nowhere else.
   */
  lemma SplitTwo(a: string, sep: string, b: string)
    requires |sep| > 0
    requires forall j :: 0 <= j < |a| ==> !Occurs(a + sep + b, sep, j)
    requires Free(b, sep)
    ensures Split(a + sep + b, sep) == [a, b]
  {
    var s := a + sep + b;
    assert s[|a|..|a| + |sep|] == sep;
    assert Occurs(s, sep, |a|);
    FindFromFirst(s, sep, 0);
    FindFromFirst(b, sep, 0);
    assert FindFrom(s, sep, 0) == |a|;
    assert s[..|a|] == a;
    assert s[|a| + |sep|..] == b;
    assert FindFrom(b, sep, 0) == -1;
  }

  /** Keeping the first `n` pieces and joining them gives a prefix of the joined whole. */
  lemma {:induction false} JoinTakeIsPrefix(parts: seq<string>, n: nat, sep: string)
    ensures StartsWith(Join(parts, sep), Join(Take(parts, n), sep))
    decreases |parts|
  {
    if n == 0 || n >= |parts| {
    } else if n == 1 {
      assert Take(parts, n) == [parts[0]];
    } else {
      var rest := parts[1..];
      assert Take(parts, n) == [parts[0]] + Take(rest, n - 1);
      assert |Take(rest, n - 1)| == n - 1;
      JoinTakeIsPrefix(rest, n - 1, sep);
      var whole, part := Join(rest, sep), Join(Take(rest, n - 1), sep);
      assert Join(parts, sep) == parts[0] + sep + whole;
      assert Join(Take(parts, n), sep) == parts[0] + sep + part;
      assert whole[..|part|] == part;
      assert (parts[0] + sep + whole)[..|parts[0] + sep + part|] == parts[0] + sep + part;
    }
  }

  /** Dropping at least one piece makes the joined string strictly shorter. */
  lemma {:induction false} JoinTakeShorter(parts: seq<string>, n: nat, sep: string)
    requires 1 <= n < |parts|
    requires |sep| > 0
    ensures |Join(Take(parts, n), sep)| < |Join(parts, sep)|
    decreases |parts|
  {
    if n == 1 {
      assert Take(parts, n) == [parts[0]];
    } else {
      var rest := parts[1..];
      assert Take(parts, n) == [parts[0]] + Take(rest, n - 1);
      JoinTakeShorter(rest, n - 1, sep);
    }
  }

  /**
   * `path.split("/").slice(0, n).join("/")`: the first `n` segments of a path.
   * The result is a prefix of the path, and it is the whole path exactly when
   * the path has no more than `n` segments.
   */
  function KeepSegments(path: string, n: nat): (r: string)
    requires n >= 1
    ensures StartsWith(path, r)
    ensures r == path <==> SegmentCount(path) <= n
  {
    var parts := Split(path, "/");
    JoinSplit(path, "/");
    JoinTakeIsPrefix(parts, n, "/");
    if n < |parts| then
      JoinTakeShorter(parts, n, "/");
      Join(Take(parts, n), "/")
    else
      Join(Take(parts, n), "/")
  }

  /**
   * The UTF-16 code units of one character: two for a character outside
   * the Basic Multilingual Plane, written as a surrogate pair, else one.
   */
  function CodeUnits(c: char): (n: nat)
    ensures n == 1 || n == 2
    ensures n == 2 <==> c as int >= 0x1_0000
  {
    if c as int >= 0x1_0000 then 2 else 1
  }

  /** JavaScript's `s.length`: the number of UTF-16 code units, not of characters. */
  function JsLength(s: string): (n: nat)
    ensures |s| <= n <= 2 * |s|
    ensures n == |s| <==> forall k :: 0 <= k < |s| ==> CodeUnits(s[k]) == 1
    decreases |s|
  {
    if s == [] then 0 else JsLength(s[..|s| - 1]) + CodeUnits(s[|s| - 1])
  }

  /** Cutting `s` after `k` characters drops at least one code unit per character dropped. */
  lemma {:induction false} JsLengthOfPrefix(s: string, k: nat)
    requires k <= |s|
    ensures JsLength(s[..k]) + (|s| - k) <= JsLength(s)
    decreases |s|
  {
    if k < |s| {
      var init := s[..|s| - 1];
      JsLengthOfPrefix(init, k);
      assert init[..k] == s[..k];
    } else {
      assert s[..k] == s;
    }
  }

  /** A proper prefix is shorter in code units too, so prefixes are nested the same way in both units. */
  lemma ProperPrefixIsShorter(s: string, prefix: string)
    requires StartsWith(s, prefix) && |prefix| < |s|
    ensures JsLength(prefix) < JsLength(s)
  {
    JsLengthOfPrefix(s, |prefix|);
  }

  /** Longest first: the order `sort((a, b) => b.length - a.length)` produces. */
  predicate LongestFirst(s: seq<string>) {
    forall i, j :: 0 <= i < j < |s| ==> JsLength(s[i]) >= JsLength(s[j])
  }

  /** Every element of `s` is at most `n` long. */
  predicate NoLongerThan(s: seq<string>, n: nat) {
    forall k :: 0 <= k < |s| ==> JsLength(s[k]) <= n
  }

  /** Inserts `x` after every element at least as long, which keeps the sort stable. */
  function InsertByLength(x: string, s: seq<string>): (r: seq<string>)
    requires LongestFirst(s)
    ensures LongestFirst(r)
    ensures forall n: nat :: NoLongerThan(s, n) && JsLength(x) <= n ==> NoLongerThan(r, n)
    decreases |s|
  {
    if s == [] then [x]
    else if JsLength(s[0]) >= JsLength(x) then
      var tail := InsertByLength(x, s[1..]);
      assert NoLongerThan(s[1..], JsLength(s[0]));
      [s[0]] + tail
    else [x] + s
  }

  /** Insertion adds exactly `x`. */
  lemma {:induction false} InsertByLengthPermutes(x: string, s: seq<string>)
    requires LongestFirst(s)
    ensures multiset(InsertByLength(x, s)) == multiset(s) + multiset{x}
    decreases |s|
  {
    if s != [] && JsLength(s[0]) >= JsLength(x) {
      InsertByLengthPermutes(x, s[1..]);
      assert s == [s[0]] + s[1..];
    }
  }

  /**
   * The stable sort by non-increasing length of the JavaScript `Array.prototype.sort`
   * with comparator `(a, b) => b.length - a.length`, written as an insertion sort.
   */
  function SortByLengthDesc(s: seq<string>): (r: seq<string>)
    ensures LongestFirst(r)
    decreases |s|
  {
    if s == [] then []
    else InsertByLength(s[|s| - 1], SortByLengthDesc(s[..|s| - 1]))
  }

  /** Sorting is a permutation: the same elements, the same number of times each. */
  lemma {:induction false} SortByLengthDescPermutes(s: seq<string>)
    ensures multiset(SortByLengthDesc(s)) == multiset(s)
    decreases |s|
  {
    if s != [] {
      var init := s[..|s| - 1];
      SortByLengthDescPermutes(init);
      InsertByLengthPermutes(s[|s| - 1], SortByLengthDesc(init));
      assert s == init + [s[|s| - 1]];
    }
  }

  /**
   * The sort compares code units: an emoji counts two, as "ab" does, so the
   * two keep their order although the emoji is one character.
   */
  lemma SortComparesCodeUnits()
    ensures SortByLengthDesc(["\U{1F600}", "ab"]) == ["\U{1F600}", "ab"]
    ensures |"\U{1F600}"| < |"ab"|
  {
    var emoji, ab := "\U{1F600}", "ab";
    assert JsLength(emoji) == 2;
    assert JsLength(ab) == 2 by {
      assert ab[..1] == "a";
    }
    assert [emoji, ab][..1] == [emoji];
    assert SortByLengthDesc([emoji]) == [emoji] by {
      assert [emoji][..0] == [];
    }
    assert InsertByLength(ab, [emoji]) == [emoji, ab] by {
      assert [emoji][1..] == [];
    }
  }

  /** Sorting keeps exactly the same elements, and keeps them free of repeats. */
  lemma SortByLengthDescElements(s: seq<string>)
    ensures forall y :: y in SortByLengthDesc(s) <==> y in s
    ensures Distinct(s) ==> Distinct(SortByLengthDesc(s))
  {
    var r := SortByLengthDesc(s);
    SortByLengthDescPermutes(s);
    assert forall y :: y in r <==> y in multiset(r);
    assert forall y :: y in s <==> y in multiset(s);
    if Distinct(s) {
      PermutationKeepsDistinct(s, r);
    }
  }

  /** Of two prefixes of the same string, the longer one is the shorter one extended. */
  lemma PrefixesNested(s: string, a: string, b: string)
    requires StartsWith(s, a) && StartsWith(s, b) && JsLength(a) <= JsLength(b)
    ensures StartsWith(b, a)
    ensures JsLength(a) == JsLength(b) ==> a == b
  {
    if |b| < |a| {
      assert a[..|b|] == s[..|a|][..|b|];
      ProperPrefixIsShorter(a, b);
    }
    assert b[..|a|] == s[..|b|][..|a|];
    if |a| < |b| {
      ProperPrefixIsShorter(b, a);
    }
  }
}
