/** Order-preserving selection from a sequence (the `Array.prototype.filter`
    of the source) and a few facts about it. */
module Seqs {

  /** The elements `x` of `s` with `p(x, a)`, in their original order. The
      predicate takes its parameter `a` separately, so that a named predicate
      can be passed instead of a closure. */
  function Filter<T(!new), A>(s: seq<T>, p: (T, A) -> bool, a: A): (r: seq<T>)
    ensures |r| <= |s|
    ensures forall x :: x in r <==> x in s && p(x, a)
    ensures forall i :: 0 <= i < |r| ==> p(r[i], a)
    ensures multiset(r) <= multiset(s)
  {
    if s == [] then []
    else
      assert s == [s[0]] + s[1..];
      (if p(s[0], a) then [s[0]] else []) + Filter(s[1..], p, a)
  }

  lemma {:induction false} FilterAppend<T(!new), A>(u: seq<T>, v: seq<T>, p: (T, A) -> bool, a: A)
    ensures Filter(u + v, p, a) == Filter(u, p, a) + Filter(v, p, a)
  {
    if u == [] {
      assert u + v == v;
    } else {
      assert (u + v)[0] == u[0];
      assert (u + v)[1..] == u[1..] + v;
      FilterAppend(u[1..], v, p, a);
    }
  }

  /** Filtering a sequence with one more element at its front. */
  lemma FilterCons<T(!new), A>(x: T, s: seq<T>, p: (T, A) -> bool, a: A)
    ensures Filter([x] + s, p, a) == (if p(x, a) then [x] else []) + Filter(s, p, a)
  {
    assert ([x] + s)[0] == x;
    assert ([x] + s)[1..] == s;
  }

  /** Filtering a sequence with one more element at its end. */
  lemma {:induction false} FilterSnoc<T(!new), A>(s: seq<T>, x: T, p: (T, A) -> bool, a: A)
    ensures Filter(s + [x], p, a) == Filter(s, p, a) + (if p(x, a) then [x] else [])
  {
    FilterAppend(s, [x], p, a);
    FilterCons(x, [], p, a);
    assert [x] + [] == [x];
  }

  /** When every element passes, filtering changes nothing. */
  lemma {:induction false} FilterAll<T(!new), A>(s: seq<T>, p: (T, A) -> bool, a: A)
    requires forall i :: 0 <= i < |s| ==> p(s[i], a)
    ensures Filter(s, p, a) == s
  {
    if s != [] {
      FilterAll(s[1..], p, a);
    }
  }

  /** When no element passes, the result is empty. */
  lemma {:induction false} FilterNone<T(!new), A>(s: seq<T>, p: (T, A) -> bool, a: A)
    requires forall i :: 0 <= i < |s| ==> !p(s[i], a)
    ensures Filter(s, p, a) == []
  {
    if s != [] {
      FilterNone(s[1..], p, a);
    }
  }

  /** Filtering keeps every copy of a passing element and drops every copy
      of a failing one. */
  lemma {:induction false} FilterCount<T(!new), A>(s: seq<T>, p: (T, A) -> bool, a: A, x: T)
    ensures multiset(Filter(s, p, a))[x] == if p(x, a) then multiset(s)[x] else 0
  {
    if s != [] {
      assert s == [s[0]] + s[1..];
      FilterCount(s[1..], p, a, x);
    }
  }

  /** Whether the sequence holds each value at most once. */
  predicate NoDup<T(==)>(s: seq<T>) {
    forall i, j :: 0 <= i < j < |s| ==> s[i] != s[j]
  }

  /** `s` without the occurrences of `x`. */
  function Remove<T(==,!new)>(s: seq<T>, x: T): (r: seq<T>)
    ensures forall y :: y in r <==> y in s && y != x
    ensures NoDup(s) ==> NoDup(r)
    ensures x !in s ==> r == s
    ensures NoDup(s) && x in s ==> |r| == |s| - 1
  {
    if s == [] then []
    else
      assert NoDup(s) ==> NoDup(s[1..]) && s[0] !in s[1..];
      if s[0] == x then Remove(s[1..], x)
      else [s[0]] + Remove(s[1..], x)
  }
}
