/** Sequence notions shared by the list-shaping operations. */
module Seqs {
  import opened Wrappers

  /** `a` can be obtained from `b` by deleting elements, order kept. */
  ghost predicate IsSubsequence<T>(a: seq<T>, b: seq<T>)
    decreases |b|
  {
    if |a| == 0 then true
    else if |b| == 0 then false
    else if a[0] == b[0] then IsSubsequence(a[1..], b[1..])
    else IsSubsequence(a, b[1..])
  }

  /** The elements of `s` satisfying `p`, in their original order. */
  function Filter<T>(s: seq<T>, p: T -> bool): (r: seq<T>)
    ensures |r| <= |s|
    ensures forall i :: 0 <= i < |r| ==> r[i] in s && p(r[i])
    ensures forall i :: 0 <= i < |s| && p(s[i]) ==> s[i] in r
    ensures IsSubsequence(r, s)
    ensures multiset(r) <= multiset(s)
  {
    if |s| == 0 then []
    else
      var rest := Filter(s[1..], p);
      assert s == [s[0]] + s[1..];
      if p(s[0]) then [s[0]] + rest else rest
  }

  lemma {:induction false} FilterIdempotent<T>(s: seq<T>, p: T -> bool)
    ensures Filter(Filter(s, p), p) == Filter(s, p)
  {
    if |s| > 0 {
      FilterIdempotent(s[1..], p);
      if p(s[0]) {
        var r := Filter(s, p);
        assert r[0] == s[0] && r[1..] == Filter(s[1..], p);
      }
    }
  }

  /** Filtering with a test that may raise: the first statement, in order,
      on which the test fails stops the whole filter with that error. */
  function TryFilter<T, E>(s: seq<T>, test: T -> Result<bool, E>): Result<seq<T>, E>
    decreases |s|
  {
    if |s| == 0 then Ok([])
    else
      var keep :- test(s[0]);
      var rest :- TryFilter(s[1..], test);
      Ok(if keep then [s[0]] + rest else rest)
  }

  /** When the test, wherever it does not fail, decides `p`: the filter
      succeeds exactly when the test fails nowhere, and then keeps the
      elements satisfying `p` in order; otherwise it fails with the error of
      an element the test fails on. */
  lemma {:induction false} TryFilterOutcome<T, E>(s: seq<T>, test: T -> Result<bool, E>, p: T -> bool)
    requires forall x :: test(x).Ok? ==> test(x).value == p(x)
    ensures TryFilter(s, test).Ok? <==> forall i :: 0 <= i < |s| ==> test(s[i]).Ok?
    ensures TryFilter(s, test).Ok? ==> TryFilter(s, test).value == Filter(s, p)
    ensures TryFilter(s, test).Err? ==> exists i :: 0 <= i < |s| && test(s[i]) == Err(TryFilter(s, test).error)
    decreases |s|
  {
    if |s| > 0 {
      var tail := s[1..];
      TryFilterOutcome(tail, test, p);
      assert forall i :: 1 <= i < |s| ==> s[i] == tail[i - 1];
      var r := TryFilter(tail, test);
      if test(s[0]).Ok? && r.Err? {
        var j :| 0 <= j < |tail| && test(tail[j]) == Err(r.error);
        assert s[j + 1] == tail[j];
      }
    }
  }
}
