/** The array built-ins the application calls, as functions on sequences:
    `Array.prototype.filter` and `Array.prototype.findIndex`. */
module Lists {

  /** `a` is `b` with some elements left out: an order-preserving
      subsequence. */
  ghost predicate IsSubsequence<T>(a: seq<T>, b: seq<T>)
    decreases |b|
  {
    if a == [] then true
    else if b == [] then false
    else (a[0] == b[0] && IsSubsequence(a[1..], b[1..])) || IsSubsequence(a, b[1..])
  }

  lemma {:induction false} SubsequenceReflexive<T>(s: seq<T>)
    ensures IsSubsequence(s, s)
  {
    if s != [] {
      SubsequenceReflexive(s[1..]);
    }
  }

  /** `s.filter(keep)`: the elements of `s` that `keep` accepts, in their
      original order and with their multiplicities. */
  function Filter<T(!new)>(s: seq<T>, keep: T -> bool): (r: seq<T>)
    ensures IsSubsequence(r, s)
    ensures forall x :: multiset(r)[x] == (if keep(x) then multiset(s)[x] else 0)
    ensures forall x :: x in r <==> x in s && keep(x)
  {
    if s == [] then []
    else
      var rest := Filter(s[1..], keep);
      assert s == [s[0]] + s[1..];
      if keep(s[0]) then [s[0]] + rest else rest
  }

  /** Filtering by the same predicate a second time changes nothing. */
  lemma {:induction false} FilterIdempotent<T(!new)>(s: seq<T>, keep: T -> bool)
    ensures Filter(Filter(s, keep), keep) == Filter(s, keep)
  {
    if s != [] {
      FilterIdempotent(s[1..], keep);
    }
  }

  /** `s.findIndex(p)` started at `from`: the least index at or after
      `from` whose element satisfies `p`, or -1. */
  function FindFrom<T>(s: seq<T>, p: T -> bool, from: nat): (r: int)
    requires from <= |s|
    ensures r == -1 || (from <= r < |s| && p(s[r]))
    ensures r == -1 ==> forall i :: from <= i < |s| ==> !p(s[i])
    ensures r != -1 ==> forall i :: from <= i < r ==> !p(s[i])
    decreases |s| - from
  {
    if from == |s| then -1
    else if p(s[from]) then from
    else FindFrom(s, p, from + 1)
  }

  /** `s.findIndex(p)`. */
  function FindIndex<T>(s: seq<T>, p: T -> bool): (r: int)
    ensures r == -1 <==> forall i :: 0 <= i < |s| ==> !p(s[i])
    ensures r != -1 ==> 0 <= r < |s| && p(s[r]) && forall i :: 0 <= i < r ==> !p(s[i])
  {
    FindFrom(s, p, 0)
  }
}
