/** Sequence helpers shared by the dashboard views: the order-preserving
    filter behind `Array.prototype.filter`, the subsequence relation that
    states what such a filter keeps, and the clamping `Array.prototype.slice`
    used for every paged window. */
module Seqs {

  /** `a` can be obtained from `b` by deleting elements, keeping the order of
      what remains (greedy matching decides this exactly). */
  predicate Subsequence<T(==)>(a: seq<T>, b: seq<T>)
    decreases |b|
  {
    if |a| == 0 then true
    else if |b| == 0 then false
    else if a[0] == b[0] then Subsequence(a[1..], b[1..])
    else Subsequence(a, b[1..])
  }

  /** Every sequence is a subsequence of itself. */
  lemma {:induction false} SubsequenceRefl<T>(s: seq<T>)
    ensures Subsequence(s, s)
    decreases |s|
  {
    if |s| > 0 {
      SubsequenceRefl(s[1..]);
    }
  }

  /** The elements of `s` that satisfy `p`, in their original order
      (the semantics of `s.filter(p)`). */
  function Keep<T(==)>(s: seq<T>, p: T -> bool): (r: seq<T>)
    ensures |r| <= |s|
    ensures Subsequence(r, s)
    ensures forall x :: x in r ==> x in s && p(x)
    ensures forall x :: x in s && p(x) ==> x in r
    ensures forall x :: x in s ==> multiset(r)[x] == if p(x) then multiset(s)[x] else 0
  {
    if |s| == 0 then []
    else
      assert s == [s[0]] + s[1..];
      if p(s[0]) then [s[0]] + Keep(s[1..], p)
      else Keep(s[1..], p)
  }

  /** A filter whose predicate accepts everything returns its input. */
  lemma {:induction false} KeepAll<T>(s: seq<T>, p: T -> bool)
    requires forall x :: x in s ==> p(x)
    ensures Keep(s, p) == s
  {
    if |s| > 0 {
      assert s[0] in s;
      assert forall x :: x in s[1..] ==> x in s;
      KeepAll(s[1..], p);
      assert s == [s[0]] + s[1..];
    }
  }

  /** Two predicates that agree on the elements of `s` keep the same elements. */
  lemma {:induction false} KeepAgree<T>(s: seq<T>, p: T -> bool, q: T -> bool)
    requires forall x :: x in s ==> p(x) == q(x)
    ensures Keep(s, p) == Keep(s, q)
  {
    if |s| > 0 {
      assert s[0] in s;
      assert forall x :: x in s[1..] ==> x in s;
      KeepAgree(s[1..], p, q);
    }
  }

  /** `Array.prototype.slice(start, end)`: negative bounds count from the end,
      both bounds are clamped to `[0, |s|]`, and an empty range gives `[]`. */
  function Slice<T>(s: seq<T>, start: int, end: int): (r: seq<T>)
    ensures start <= end ==> |r| <= end - start
    ensures forall k :: 0 <= k < |r| ==> r[k] in s
    ensures 0 <= start ==>
              forall k :: 0 <= k < |r| ==> start + k < |s| && r[k] == s[start + k]
    ensures 0 <= start <= end && start < |s| ==>
              |r| == (if end < |s| then end else |s|) - start
    ensures 0 <= start && |s| <= start ==> r == []
    ensures 0 <= end <= start ==> r == []
    ensures start < 0 ==>
              var from := if |s| + start > 0 then |s| + start else 0;
              forall k :: 0 <= k < |r| ==> from + k < |s| && r[k] == s[from + k]
    ensures start < 0 ==>
              var from := if |s| + start > 0 then |s| + start else 0;
              var to := if end < 0 then (if |s| + end > 0 then |s| + end else 0)
                        else if end < |s| then end else |s|;
              |r| == if from < to then to - from else 0
  {
    var from := ClampIndex(start, |s|);
    var to := ClampIndex(end, |s|);
    if from < to then s[from..to] else []
  }

  /** How `slice` turns one of its arguments into a position in `[0, len]`. */
  function ClampIndex(i: int, len: nat): (r: nat)
    ensures r <= len
    ensures 0 <= i ==> r == (if i < len then i else len)
    ensures i < 0 ==> r == (if len + i > 0 then len + i else 0)
  {
    if i < 0 then (if len + i > 0 then len + i else 0)
    else if i < len then i
    else len
  }
}
