/**
 * The two LINQ operators the query rules are built from, `Where` and
 * `FirstOrDefault`, over finite sequences, with what they guarantee.
 */
module Linq {
  import opened OsihModel

  /** `a` can be obtained from `b` by deleting elements, keeping the rest in order. */
  ghost predicate IsSubsequence<T>(a: seq<T>, b: seq<T>)
    decreases |b|
  {
    if a == [] then true
    else if b == [] then false
    else (a[0] == b[0] && IsSubsequence(a[1..], b[1..])) || IsSubsequence(a, b[1..])
  }

  /** `source.Where(p)`: the elements satisfying `p`, in source order. */
  function Where<T>(source: seq<T>, p: T -> bool): (r: seq<T>)
    ensures |r| <= |source|
    ensures forall i :: 0 <= i < |r| ==> p(r[i])
    ensures forall x :: x in r ==> x in source
    ensures forall i :: 0 <= i < |source| && p(source[i]) ==> source[i] in r
  {
    if source == [] then []
    else if p(source[0]) then [source[0]] + Where(source[1..], p)
    else Where(source[1..], p)
  }

  /** `source.FirstOrDefault()` for a reference type: the first element, or null. */
  function FirstOrDefault<T>(source: seq<T>): (r: Option<T>)
    ensures r.None? <==> source == []
    ensures r.Some? ==> r.value == source[0]
  {
    if source == [] then None else Some(source[0])
  }

  /** The result of `Where` is an order-preserving subsequence of its source. */
  lemma {:induction false} WhereIsSubsequence<T>(source: seq<T>, p: T -> bool)
    ensures IsSubsequence(Where(source, p), source)
  {
    if source != [] {
      WhereIsSubsequence(source[1..], p);
      var rest := Where(source[1..], p);
      if p(source[0]) {
        assert Where(source, p) == [source[0]] + rest;
        assert ([source[0]] + rest)[1..] == rest;
      } else {
        DropHeadKeepsSubsequence(rest, source);
      }
    }
  }

  /** A subsequence of the tail is a subsequence of the whole. */
  lemma DropHeadKeepsSubsequence<T>(a: seq<T>, b: seq<T>)
    requires b != [] && IsSubsequence(a, b[1..])
    ensures IsSubsequence(a, b)
  {
  }

  /**
   * `Where` keeps every element that satisfies the predicate as many times as
   * it occurs in the source, and drops every other element entirely.
   */
  lemma {:induction false} WhereMultiplicity<T>(source: seq<T>, p: T -> bool, x: T)
    ensures multiset(Where(source, p))[x] == if p(x) then multiset(source)[x] else 0
  {
    if source != [] {
      WhereMultiplicity(source[1..], p, x);
      assert source == [source[0]] + source[1..];
      assert multiset(source) == multiset([source[0]]) + multiset(source[1..]);
      if p(source[0]) {
        assert multiset(Where(source, p)) == multiset([source[0]]) + multiset(Where(source[1..], p));
      }
    }
  }

  /** Filtering twice is filtering once by the conjunction (the composition of LINQ filters). */
  lemma {:induction false} WhereWhere<T>(source: seq<T>, p: T -> bool, q: T -> bool, both: T -> bool)
    requires forall x :: both(x) == (p(x) && q(x))
    ensures Where(Where(source, p), q) == Where(source, both)
  {
    if source != [] {
      WhereWhere(source[1..], p, q, both);
      if p(source[0]) {
        assert Where(source, p) == [source[0]] + Where(source[1..], p);
        assert ([source[0]] + Where(source[1..], p))[1..] == Where(source[1..], p);
      }
    }
  }

  /** Two predicates that agree on every element select the same subsequence. */
  lemma {:induction false} WhereCongruent<T>(source: seq<T>, p: T -> bool, q: T -> bool)
    requires forall i :: 0 <= i < |source| ==> p(source[i]) == q(source[i])
    ensures Where(source, p) == Where(source, q)
  {
    if source != [] {
      assert forall i :: 0 <= i < |source[1..]| ==> source[1..][i] == source[i + 1];
      WhereCongruent(source[1..], p, q);
    }
  }

  /** A predicate that holds of every element keeps the source unchanged. */
  lemma {:induction false} WhereKeepsAll<T>(source: seq<T>, p: T -> bool)
    requires forall i :: 0 <= i < |source| ==> p(source[i])
    ensures Where(source, p) == source
  {
    if source != [] {
      var tail := source[1..];
      assert forall i :: 0 <= i < |tail| ==> tail[i] == source[i + 1];
      WhereKeepsAll(tail, p);
      assert p(source[0]);
      assert Where(source, p) == [source[0]] + tail;
      assert [source[0]] + tail == source;
    }
  }

  /**
   * The head of a non-empty `Where` is the source element at the first index
   * satisfying the predicate.
   */
  lemma {:induction false} WhereHead<T>(source: seq<T>, p: T -> bool)
    requires Where(source, p) != []
    ensures exists k :: 0 <= k < |source| && p(source[k]) && Where(source, p)[0] == source[k] &&
                        forall j :: 0 <= j < k ==> !p(source[j])
  {
    if p(source[0]) {
      assert Where(source, p)[0] == source[0];
    } else {
      var tail := source[1..];
      assert Where(source, p) == Where(tail, p);
      WhereHead(tail, p);
      var k :| 0 <= k < |tail| && p(tail[k]) && Where(tail, p)[0] == tail[k] &&
               forall j :: 0 <= j < k ==> !p(tail[j]);
      assert source[k + 1] == tail[k];
      assert forall j :: 0 <= j < k + 1 ==> !p(source[j]) by {
        forall j | 0 <= j < k + 1 ensures !p(source[j]) {
          if j > 0 { assert source[j] == tail[j - 1]; }
        }
      }
    }
  }
}
