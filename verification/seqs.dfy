/**
 Generic sequence operations the task list is built from: `Array.prototype.filter`
 (Keep), `Array.prototype.findIndex`/`find` (FirstIndex), and the order-preserving
 subsequence relation used to state what a filter returns.
 */
module Seqs {
  import opened Optional

  /** `r` can be obtained from `s` by deleting elements, without reordering the rest. */
  predicate IsSubsequence<T(==)>(r: seq<T>, s: seq<T>)
    decreases |s|
  {
    if r == [] then true
    else if s == [] then false
    else if r[0] == s[0] then IsSubsequence(r[1..], s[1..])
    else IsSubsequence(r, s[1..])
  }

  /** The elements of `s` that satisfy `p`, in their original order. */
  function Keep<T(==,!new)>(s: seq<T>, p: T -> bool): (r: seq<T>)
    ensures |r| <= |s|
    ensures forall x :: x in r <==> x in s && p(x)
    ensures forall x :: multiset(r)[x] == if p(x) then multiset(s)[x] else 0
  {
    if s == [] then []
    else
      assert s == [s[0]] + s[1..];
      if p(s[0]) then [s[0]] + Keep(s[1..], p) else Keep(s[1..], p)
  }

  /** A filter never reorders: its result is a subsequence of its input. */
  lemma {:induction false} KeepIsSubsequence<T(!new)>(s: seq<T>, p: T -> bool)
    ensures IsSubsequence(Keep(s, p), s)
  {
    if s != [] {
      KeepIsSubsequence(s[1..], p);
      if !p(s[0]) {
        SubsequenceSkip(Keep(s[1..], p), s[0], s[1..]);
      }
    }
  }

  /** A subsequence of a tail is a subsequence of the whole sequence. */
  lemma {:induction false} SubsequenceSkip<T>(r: seq<T>, x: T, s: seq<T>)
    requires IsSubsequence(r, s)
    ensures IsSubsequence(r, [x] + s)
    decreases |s|, 1
  {
    if r != [] && r[0] == x {
      // Greedy matching takes x; the rest of r must be a subsequence of s.
      SubsequenceTail(r, s);
    }
  }

  /** Dropping the head of a non-empty subsequence keeps it a subsequence. */
  lemma {:induction false} SubsequenceTail<T>(r: seq<T>, s: seq<T>)
    requires r != []
    requires IsSubsequence(r, s)
    ensures IsSubsequence(r[1..], s)
    decreases |s|, 0
  {
    if r[0] == s[0] {
      SubsequenceSkip(r[1..], s[0], s[1..]);
      assert [s[0]] + s[1..] == s;
    } else {
      SubsequenceTail(r, s[1..]);
      SubsequenceSkip(r[1..], s[0], s[1..]);
      assert [s[0]] + s[1..] == s;
    }
  }

  /** Every element of a subsequence is an element of the sequence. */
  lemma {:induction false} SubsequenceMember<T>(r: seq<T>, s: seq<T>, x: T)
    requires IsSubsequence(r, s)
    requires x in r
    ensures x in s
    decreases |s|
  {
    if r[0] == s[0] {
      if x != r[0] {
        SubsequenceMember(r[1..], s[1..], x);
      }
    } else {
      SubsequenceMember(r, s[1..], x);
    }
  }

  /** A predicate and its negation split a sequence: the two filters' sizes add up. */
  lemma {:induction false} KeepSplitsLength<T(!new)>(s: seq<T>, p: T -> bool, q: T -> bool)
    requires forall x :: q(x) == !p(x)
    ensures |Keep(s, p)| + |Keep(s, q)| == |s|
  {
    if s != [] {
      KeepSplitsLength(s[1..], p, q);
    }
  }

  /** A filter whose predicate holds of every element of `s` returns `s` unchanged. */
  lemma {:induction false} KeepAllOf<T(!new)>(s: seq<T>, p: T -> bool)
    requires forall i :: 0 <= i < |s| ==> p(s[i])
    ensures Keep(s, p) == s
  {
    if s != [] {
      KeepAllOf(s[1..], p);
      assert [s[0]] + s[1..] == s;
    }
  }

  /** Filtering twice with the same predicate filters once. */
  lemma {:induction false} KeepIdempotent<T(!new)>(s: seq<T>, p: T -> bool)
    ensures Keep(Keep(s, p), p) == Keep(s, p)
  {
    var r := Keep(s, p);
    forall i | 0 <= i < |r| ensures p(r[i]) {
      assert r[i] in r;
    }
    KeepAllOf(r, p);
  }

  /** The index of the first element of `s` satisfying `p`, if there is one. */
  function FirstIndex<T>(s: seq<T>, p: T -> bool): (r: Option<nat>)
    ensures r.None? <==> forall i :: 0 <= i < |s| ==> !p(s[i])
    ensures r.Some? ==> r.value < |s| && p(s[r.value])
    ensures r.Some? ==> forall j :: 0 <= j < r.value ==> !p(s[j])
  {
    if s == [] then None
    else if p(s[0]) then Some(0)
    else match FirstIndex(s[1..], p)
      case None => None
      case Some(i) => Some(i + 1)
  }

}
