/** Generic sequence operations that the components express with JavaScript's
    `Array.prototype.filter`, `reduce`, `slice` and the `Set` spread. */
module Seqs {

  /** `sub` can be obtained from `s` by deleting elements, the rest kept in order. */
  predicate IsSubsequence<T(==)>(sub: seq<T>, s: seq<T>)
  {
    if sub == [] then true
    else if s == [] then false
    else (sub[0] == s[0] && IsSubsequence(sub[1..], s[1..])) || IsSubsequence(sub, s[1..])
  }

  /** Every sequence is a subsequence of itself. */
  lemma {:induction false} SubsequenceRefl<T>(s: seq<T>)
    ensures IsSubsequence(s, s)
  {
    if s != [] {
      SubsequenceRefl(s[1..]);
    }
  }

  /** `xs.filter(p)`: the elements satisfying `p`, in their original order. */
  function Filter<T(!new)>(s: seq<T>, p: T -> bool): (r: seq<T>)
    ensures |r| <= |s|
    ensures forall x :: x in r <==> x in s && p(x)
    ensures forall x :: multiset(r)[x] == if p(x) then multiset(s)[x] else 0
    ensures IsSubsequence(r, s)
  {
    if s == [] then []
    else
      assert s == [s[0]] + s[1..];
      if p(s[0]) then [s[0]] + Filter(s[1..], p) else Filter(s[1..], p)
  }

  /** `xs.reduce((acc, x) => acc + f(x), 0)`; integer addition is associative, so the
      right-nested sum below equals the left fold. */
  function Sum<T>(s: seq<T>, f: T -> int): int
  {
    if s == [] then 0 else f(s[0]) + Sum(s[1..], f)
  }

  /** `xs.slice(0, n)`. */
  function Take<T>(s: seq<T>, n: nat): (r: seq<T>)
    ensures |r| == if |s| <= n then |s| else n
    ensures r <= s
  {
    if |s| <= n then s else s[..n]
  }

  /** The first `n` elements of `a + b` come from `a`, then from `b`. */
  lemma TakeConcat<T>(a: seq<T>, b: seq<T>, n: nat)
    ensures forall i :: 0 <= i < |Take(a + b, n)| ==>
              Take(a + b, n)[i] == if i < |a| then a[i] else b[i - |a|]
  {
  }

  predicate Distinct<T(==)>(s: seq<T>)
  {
    forall i, j :: 0 <= i < j < |s| ==> s[i] != s[j]
  }

  /** Position of the first occurrence of `x` in `s`. */
  function FirstIndex<T(==)>(s: seq<T>, x: T): (k: nat)
    requires x in s
    ensures k < |s| && s[k] == x && x !in s[..k]
  {
    if s[0] == x then 0 else 1 + FirstIndex(s[1..], x)
  }

  /** `[...new Set(xs)]`: every value once, in the order of its first occurrence. */
  function Dedup<T(==,!new)>(s: seq<T>): (r: seq<T>)
    ensures forall x :: x in r <==> x in s
    ensures Distinct(r)
    ensures |r| <= |s|
    ensures forall i, j :: 0 <= i < j < |r| ==> FirstIndex(s, r[i]) < FirstIndex(s, r[j])
  {
    if s == [] then []
    else
      var front, last := s[..|s| - 1], s[|s| - 1];
      assert s == front + [last];
      var r := Dedup(front);
      FirstIndexExtend(front, last);
      if last in r then r else r + [last]
  }

  /** The first occurrence comes no later than any occurrence. */
  lemma {:induction false} FirstIndexLeast<T>(s: seq<T>, x: T, j: nat)
    requires j < |s| && s[j] == x
    ensures FirstIndex(s, x) <= j
  {
    if s[0] != x {
      FirstIndexLeast(s[1..], x, j - 1);
    }
  }

  /** A value absent from `front` first occurs at the end of `front + [last]`. */
  lemma {:induction false} FirstIndexAppendNew<T>(front: seq<T>, last: T)
    requires last !in front
    ensures FirstIndex(front + [last], last) == |front|
  {
    if front != [] {
      assert (front + [last])[1..] == front[1..] + [last];
      FirstIndexAppendNew(front[1..], last);
    }
  }

  /** Appending an element leaves the first occurrences of earlier values where they
      were, and puts a new value's first occurrence at the end. */
  lemma {:induction false} FirstIndexExtend<T>(front: seq<T>, last: T)
    ensures forall x :: x in front ==> FirstIndex(front + [last], x) == FirstIndex(front, x) < |front|
    ensures last !in front ==> FirstIndex(front + [last], last) == |front|
  {
    var s := front + [last];
    forall x | x in front
      ensures FirstIndex(s, x) == FirstIndex(front, x)
    {
      var m := FirstIndex(front, x);
      FirstIndexLeast(s, x, m);
      var k := FirstIndex(s, x);
      assert front[k] == x;
      FirstIndexLeast(front, x, k);
    }
    if last !in front {
      FirstIndexAppendNew(front, last);
    }
  }

  lemma {:induction false} FilterConcat<T(!new)>(a: seq<T>, b: seq<T>, p: T -> bool)
    ensures Filter(a + b, p) == Filter(a, p) + Filter(b, p)
  {
    if a == [] {
      assert a + b == b;
    } else {
      assert (a + b)[1..] == a[1..] + b;
      FilterConcat(a[1..], b, p);
    }
  }

  lemma {:induction false} SumConcat<T>(a: seq<T>, b: seq<T>, f: T -> int)
    ensures Sum(a + b, f) == Sum(a, f) + Sum(b, f)
  {
    if a == [] {
      assert a + b == b;
    } else {
      assert (a + b)[1..] == a[1..] + b;
      SumConcat(a[1..], b, f);
    }
  }

  /** Inserting one element into a sequence adds it to the selection exactly when
      it satisfies the predicate. */
  /** Dropping a last element the predicate rejects leaves the filter unchanged. */
  lemma FilterDropLast<T(!new)>(s: seq<T>, p: T -> bool)
    requires s != [] && !p(s[|s| - 1])
    ensures Filter(s[..|s| - 1], p) == Filter(s, p)
  {
    var last := s[|s| - 1];
    assert s == s[..|s| - 1] + [last];
    FilterConcat(s[..|s| - 1], [last], p);
    assert [last][1..] == [];
  }

  lemma FilterInsert<T(!new)>(before: seq<T>, x: T, after: seq<T>, p: T -> bool, f: T -> int)
    ensures |Filter(before + [x] + after, p)| == |Filter(before + after, p)| + (if p(x) then 1 else 0)
    ensures Sum(Filter(before + [x] + after, p), f) == Sum(Filter(before + after, p), f) + (if p(x) then f(x) else 0)
  {
    FilterConcat(before + [x], after, p);
    FilterConcat(before, [x], p);
    FilterConcat(before, after, p);
    SumConcat(Filter(before, p) + Filter([x], p), Filter(after, p), f);
    SumConcat(Filter(before, p), Filter([x], p), f);
    SumConcat(Filter(before, p), Filter(after, p), f);
  }

  /** Two pointwise-equal predicates select the same elements. */
  lemma {:induction false} FilterExt<T(!new)>(s: seq<T>, p: T -> bool, q: T -> bool)
    requires forall x :: x in s ==> p(x) == q(x)
    ensures Filter(s, p) == Filter(s, q)
  {
    if s != [] {
      FilterExt(s[1..], p, q);
    }
  }

  /** A predicate that holds of every element keeps the whole sequence. */
  lemma {:induction false} FilterAll<T(!new)>(s: seq<T>, p: T -> bool)
    requires forall x :: x in s ==> p(x)
    ensures Filter(s, p) == s
  {
    if s != [] {
      FilterAll(s[1..], p);
    }
  }

  /** A predicate that holds of no element keeps nothing. */
  lemma {:induction false} FilterNone<T(!new)>(s: seq<T>, p: T -> bool)
    requires forall x :: x in s ==> !p(x)
    ensures Filter(s, p) == []
  {
    if s != [] {
      FilterNone(s[1..], p);
    }
  }

  /** Filtering twice is filtering once by the conjunction. */
  lemma {:induction false} FilterFilter<T(!new)>(s: seq<T>, p: T -> bool, q: T -> bool, pq: T -> bool)
    requires forall x :: pq(x) == (p(x) && q(x))
    ensures Filter(Filter(s, p), q) == Filter(s, pq)
  {
    if s != [] {
      FilterFilter(s[1..], p, q, pq);
    }
  }

  /** Summing over a disjoint union of two selections is summing over each. */
  lemma {:induction false} SumFilterSplit<T(!new)>(s: seq<T>, p: T -> bool, q: T -> bool, pq: T -> bool, f: T -> int)
    requires forall x :: pq(x) == (p(x) || q(x))
    requires forall x :: !(p(x) && q(x))
    ensures Sum(Filter(s, pq), f) == Sum(Filter(s, p), f) + Sum(Filter(s, q), f)
  {
    if s != [] {
      SumFilterSplit(s[1..], p, q, pq, f);
      var x, rest := s[0], s[1..];
      if p(x) {
        assert Filter(s, pq) == [x] + Filter(rest, pq);
        assert Filter(s, p) == [x] + Filter(rest, p);
        assert ([x] + Filter(rest, pq))[1..] == Filter(rest, pq);
        assert ([x] + Filter(rest, p))[1..] == Filter(rest, p);
      } else if q(x) {
        assert Filter(s, pq) == [x] + Filter(rest, pq);
        assert Filter(s, q) == [x] + Filter(rest, q);
        assert ([x] + Filter(rest, pq))[1..] == Filter(rest, pq);
        assert ([x] + Filter(rest, q))[1..] == Filter(rest, q);
      }
    }
  }
}
