/** Sequence helpers: order-preserving filtering, sums, joining and flattening. */
module Seqs {

  /** The elements of `s` satisfying `p`, in the order they have in `s`. */
  function Filter<T>(s: seq<T>, p: T -> bool): (r: seq<T>)
    ensures |r| <= |s|
    ensures forall i :: 0 <= i < |r| ==> p(r[i])
  {
    if s == [] then []
    else
      (if p(s[0]) then [s[0]] else []) + Filter(s[1..], p)
  }

  /** An element is kept iff it occurs in `s` and satisfies `p`. */
  lemma {:induction false} FilterMembership<T>(s: seq<T>, p: T -> bool, x: T)
    ensures x in Filter(s, p) <==> x in s && p(x)
  {
    if s != [] {
      FilterMembership(s[1..], p, x);
      assert s == [s[0]] + s[1..];
    }
  }

  /** `r` can be obtained from `s` by deleting elements, keeping the rest in order. */
  predicate SubsequenceOf<T(==)>(r: seq<T>, s: seq<T>)
    decreases |s|
  {
    if r == [] then true
    else if s == [] then false
    else (r[0] == s[0] && SubsequenceOf(r[1..], s[1..])) || SubsequenceOf(r, s[1..])
  }

  lemma {:induction false} FilterIsSubsequence<T>(s: seq<T>, p: T -> bool)
    ensures SubsequenceOf(Filter(s, p), s)
  {
    if s != [] {
      FilterIsSubsequence(s[1..], p);
      var r := Filter(s, p);
      if p(s[0]) {
        assert r[0] == s[0] && r[1..] == Filter(s[1..], p);
      } else {
        assert r == Filter(s[1..], p);
      }
    }
  }

  /** Filtering with a predicate that holds of every element changes nothing. */
  lemma {:induction false} FilterKeepsAll<T>(s: seq<T>, p: T -> bool)
    requires forall x :: x in s ==> p(x)
    ensures Filter(s, p) == s
  {
    if s != [] {
      FilterKeepsAll(s[1..], p);
    }
  }

  /** Filtering with a predicate that holds of no element leaves nothing. */
  lemma {:induction false} FilterKeepsNone<T>(s: seq<T>, p: T -> bool)
    requires forall x :: x in s ==> !p(x)
    ensures Filter(s, p) == []
  {
    if s != [] {
      FilterKeepsNone(s[1..], p);
    }
  }

  /** Filtering by a weaker predicate first and then by a stronger one is the
      same as filtering by the stronger one alone. */
  lemma {:induction false} FilterOfWeakerFilter<T>(s: seq<T>, p: T -> bool, q: T -> bool)
    requires forall x :: p(x) ==> q(x)
    ensures Filter(Filter(s, q), p) == Filter(s, p)
  {
    if s != [] {
      FilterOfWeakerFilter(s[1..], p, q);
      var head := if q(s[0]) then [s[0]] else [];
      assert Filter(s, q) == head + Filter(s[1..], q);
      FilterConcat(head, Filter(s[1..], q), p);
      assert head == [s[0]] ==> Filter(head, p) == (if p(s[0]) then [s[0]] else []) + Filter([], p);
    }
  }

  /** One step of filtering: the head, if kept, followed by the filtered tail. */
  lemma FilterCons<T>(h: T, t: seq<T>, p: T -> bool)
    ensures Filter([h] + t, p) == (if p(h) then [h] else []) + Filter(t, p)
  {
    assert ([h] + t)[0] == h && ([h] + t)[1..] == t;
  }

  /** One step of summing. */
  lemma SumCons<T>(h: T, t: seq<T>, f: T -> nat)
    ensures SumBy([h] + t, f) == f(h) + SumBy(t, f)
  {
    assert ([h] + t)[0] == h && ([h] + t)[1..] == t;
  }

  /** Filtering distributes over concatenation. */
  lemma {:induction false} FilterConcat<T>(a: seq<T>, b: seq<T>, p: T -> bool)
    ensures Filter(a + b, p) == Filter(a, p) + Filter(b, p)
  {
    if a == [] {
      assert a + b == b;
    } else {
      assert (a + b)[0] == a[0];
      assert (a + b)[1..] == a[1..] + b;
      FilterConcat(a[1..], b, p);
    }
  }

  /** Two predicates that agree on every element of `s` filter it alike. */
  lemma {:induction false} FilterCongruent<T>(s: seq<T>, p: T -> bool, q: T -> bool)
    requires forall x :: x in s ==> (p(x) <==> q(x))
    ensures Filter(s, p) == Filter(s, q)
  {
    if s != [] {
      FilterCongruent(s[1..], p, q);
    }
  }

  /** The sum of `f` over the elements of `s`. */
  function SumBy<T>(s: seq<T>, f: T -> nat): nat
  {
    if s == [] then 0 else f(s[0]) + SumBy(s[1..], f)
  }

  /** The sum over the elements kept by a filter never exceeds the sum over all. */
  lemma {:induction false} SumOfFilterAtMost<T>(s: seq<T>, p: T -> bool, f: T -> nat)
    ensures SumBy(Filter(s, p), f) <= SumBy(s, f)
  {
    if s != [] {
      SumOfFilterAtMost(s[1..], p, f);
      SumConcat(if p(s[0]) then [s[0]] else [], Filter(s[1..], p), f);
    }
  }

  /** A sum splits into the part over the elements satisfying `p` and the part over the rest. */
  lemma {:induction false} SumSplits<T>(s: seq<T>, p: T -> bool, notP: T -> bool, f: T -> nat)
    requires forall x :: notP(x) == !p(x)
    ensures SumBy(s, f) == SumBy(Filter(s, p), f) + SumBy(Filter(s, notP), f)
  {
    if s != [] {
      SumSplits(s[1..], p, notP, f);
      SumConcat(if p(s[0]) then [s[0]] else [], Filter(s[1..], p), f);
      SumConcat(if notP(s[0]) then [s[0]] else [], Filter(s[1..], notP), f);
    }
  }

  lemma {:induction false} SumConcat<T>(a: seq<T>, b: seq<T>, f: T -> nat)
    ensures SumBy(a + b, f) == SumBy(a, f) + SumBy(b, f)
  {
    if a == [] {
      assert a + b == b;
    } else {
      assert (a + b)[1..] == a[1..] + b;
      SumConcat(a[1..], b, f);
    }
  }

  /** The parts joined with `sep` between consecutive parts (Python's `sep.join(parts)`). */
  function Join(sep: string, parts: seq<string>): (r: string)
    ensures parts == [] ==> r == []
    ensures |parts| == 1 ==> r == parts[0]
    ensures parts != [] ==> |r| == TotalLength(parts) + |sep| * (|parts| - 1)
  {
    if parts == [] then []
    else if |parts| == 1 then parts[0]
    else parts[0] + sep + Join(sep, parts[1..])
  }

  /** The sum of the lengths of the sequences in `ss`. */
  function TotalLength<T>(ss: seq<seq<T>>): nat
  {
    if ss == [] then 0 else |ss[0]| + TotalLength(ss[1..])
  }

  /** The concatenation of the sequences in `ss`, in order. */
  function Flatten<T>(ss: seq<seq<T>>): (r: seq<T>)
    ensures |r| == TotalLength(ss)
  {
    if ss == [] then [] else ss[0] + Flatten(ss[1..])
  }

  /** Flattening distributes over appending one more sequence. */
  lemma {:induction false} FlattenSnoc<T>(ss: seq<seq<T>>, t: seq<T>)
    ensures Flatten(ss + [t]) == Flatten(ss) + t
  {
    if ss == [] {
      assert ss + [t] == [t];
    } else {
      assert (ss + [t])[0] == ss[0];
      assert (ss + [t])[1..] == ss[1..] + [t];
      FlattenSnoc(ss[1..], t);
    }
  }

  /** Filtering a five-element list whose first and third elements are of one
      kind and the others of the other kind, by a predicate separating the two. */
  lemma FilterFiveOfTwoKinds<T>(a: T, x: T, b: T, y: T, z: T, p: T -> bool)
    requires p(a) == p(b) && p(x) == p(y) == p(z) && p(a) != p(x)
    ensures Filter([a, x, b, y, z], p) == if p(a) then [a, b] else [x, y, z]
  {
    var s := [a, x, b, y, z];
    assert s[1..][1..][1..][1..][1..] == [];
    assert Filter(s[1..][1..][1..][1..], p) == if p(a) then [] else [z];
    assert Filter(s[1..][1..][1..], p) == if p(a) then [] else [y, z];
    assert Filter(s[1..][1..], p) == if p(a) then [b] else [y, z];
    assert Filter(s[1..], p) == if p(a) then [b] else [x, y, z];
  }

  /** Filtering a five-element list whose first, third and last elements pass. */
  lemma FilterFiveKeepsOddPlaces<T>(a: T, x: T, b: T, y: T, c: T, p: T -> bool)
    requires p(a) && p(b) && p(c) && !p(x) && !p(y)
    ensures Filter([a, x, b, y, c], p) == [a, b, c]
  {
    var s := [a, x, b, y, c];
    assert s[1..][1..][1..][1..][1..] == [];
    assert Filter(s[1..][1..][1..][1..], p) == [c];
    assert Filter(s[1..][1..][1..], p) == [c];
    assert Filter(s[1..][1..], p) == [b, c];
    assert Filter(s[1..], p) == [b, c];
  }

  /** The sum over a three-element list. */
  lemma SumThree<T>(a: T, b: T, c: T, f: T -> nat)
    ensures SumBy([a, b, c], f) == f(a) + f(b) + f(c)
  {
    SumCons(c, [], f);
    assert [c] + [] == [c];
    SumCons(b, [c], f);
    assert [b] + [c] == [b, c];
    SumCons(a, [b, c], f);
    assert [a] + [b, c] == [a, b, c];
  }

  /** The sum over a five-element list. */
  lemma SumFive<T>(a: T, b: T, c: T, d: T, e: T, f: T -> nat)
    ensures SumBy([a, b, c, d, e], f) == f(a) + f(b) + f(c) + f(d) + f(e)
  {
    SumThree(c, d, e, f);
    SumCons(b, [c, d, e], f);
    assert [b] + [c, d, e] == [b, c, d, e];
    SumCons(a, [b, c, d, e], f);
    assert [a] + [b, c, d, e] == [a, b, c, d, e];
  }
}
