/**
 * Sequence operations shared by the pages: `Array.prototype.filter`, `splice(i, 1)`,
 * `map(..).filter(Boolean)` on joins, and the subsequence relation that states what a
 * filter is allowed to do to a list.
 */
module Seqs {
  import opened Wrappers

  /**
   * `xs.filter(p)`: the elements that satisfy `p`, in their original order, each as many
   * times as it occurs in `xs`.
   */
  function Filter<T(!new)>(xs: seq<T>, p: T -> bool): (r: seq<T>)
    ensures |r| <= |xs|
    ensures forall x :: x in r <==> x in xs && p(x)
    ensures forall x :: multiset(r)[x] == if p(x) then multiset(xs)[x] else 0
  {
    if xs == [] then []
    else
      assert xs == [xs[0]] + xs[1..];
      if p(xs[0]) then [xs[0]] + Filter(xs[1..], p)
      else Filter(xs[1..], p)
  }

  /** `a` can be obtained from `b` by deleting elements: order is kept, nothing is added or duplicated. */
  predicate IsSubsequence<T(==)>(a: seq<T>, b: seq<T>)
    decreases |b|
  {
    if a == [] then true
    else if b == [] then false
    else if a[0] == b[0] then IsSubsequence(a[1..], b[1..])
    else IsSubsequence(a, b[1..])
  }

  /** A filter only deletes: its result is a subsequence of its input. */
  lemma {:induction false} FilterIsSubsequence<T(!new)>(xs: seq<T>, p: T -> bool)
    ensures IsSubsequence(Filter(xs, p), xs)
  {
    if xs != [] {
      FilterIsSubsequence(xs[1..], p);
      var r := Filter(xs[1..], p);
      if !p(xs[0]) && r != [] {
        // r[0] satisfies p and xs[0] does not, so the greedy match skips xs[0]
        assert r[0] in r;
      }
    }
  }

  /** Filtering twice with the same predicate gives the same list as filtering once. */
  lemma {:induction false} FilterIdempotent<T(!new)>(xs: seq<T>, p: T -> bool)
    ensures Filter(Filter(xs, p), p) == Filter(xs, p)
  {
    if xs != [] {
      FilterIdempotent(xs[1..], p);
    }
  }

  /** When every element passes, the filter returns its input unchanged. */
  lemma {:induction false} FilterKeepsAll<T(!new)>(xs: seq<T>, p: T -> bool)
    requires forall i :: 0 <= i < |xs| ==> p(xs[i])
    ensures Filter(xs, p) == xs
  {
    if xs != [] {
      FilterKeepsAll(xs[1..], p);
    }
  }

  /** Two predicates that agree on the elements of `xs` filter it alike. */
  lemma {:induction false} FilterCongruent<T(!new)>(xs: seq<T>, p: T -> bool, q: T -> bool)
    requires forall i :: 0 <= i < |xs| ==> p(xs[i]) == q(xs[i])
    ensures Filter(xs, p) == Filter(xs, q)
  {
    if xs != [] {
      FilterCongruent(xs[1..], p, q);
    }
  }

  /** `xs.map(f)`. */
  function Map<T, U>(xs: seq<T>, f: T -> U): (r: seq<U>)
    ensures |r| == |xs|
    ensures forall i :: 0 <= i < |xs| ==> r[i] == f(xs[i])
  {
    seq(|xs|, i requires 0 <= i < |xs| => f(xs[i]))
  }

  predicate IsSome<T>(o: Option<T>) {
    o.Some?
  }

  /**
   * `xs.filter(Boolean)` on optional joins: the present values, in order. Position by
   * position the result is the list of present joins, so order and repetitions are kept.
   */
  function Present<T(!new)>(xs: seq<Option<T>>): (r: seq<T>)
    ensures |r| <= |xs|
    ensures forall x :: x in r <==> Some(x) in xs
    ensures |r| == |Filter(xs, IsSome)|
    ensures forall i :: 0 <= i < |r| ==> Some(r[i]) == Filter(xs, IsSome)[i]
  {
    if xs == [] then []
    else if xs[0].Some? then
      assert Filter(xs, IsSome) == [xs[0]] + Filter(xs[1..], IsSome);
      [xs[0].value] + Present(xs[1..])
    else
      assert Filter(xs, IsSome) == Filter(xs[1..], IsSome);
      Present(xs[1..])
  }

  /** `copy.splice(i, 1)` on a fresh copy: exactly index `i` is removed, the rest keep their order. */
  function RemoveAt<T>(xs: seq<T>, i: nat): (r: seq<T>)
    requires i < |xs|
    ensures |r| == |xs| - 1
    ensures forall j :: 0 <= j < i ==> r[j] == xs[j]
    ensures forall j :: i <= j < |r| ==> r[j] == xs[j + 1]
  {
    xs[..i] + xs[i + 1..]
  }

  /** `xs.indexOf(x)`: the first position of `x`, or -1. */
  function IndexOf<T(==)>(xs: seq<T>, x: T): (r: int)
    ensures -1 <= r < |xs|
    ensures r >= 0 ==> xs[r] == x && forall j :: 0 <= j < r ==> xs[j] != x
    ensures r == -1 <==> x !in xs
  {
    if xs == [] then -1
    else if xs[0] == x then 0
    else var k := IndexOf(xs[1..], x); if k == -1 then -1 else k + 1
  }

  /** No element occurs twice. */
  predicate NoDuplicates<T(==)>(xs: seq<T>) {
    forall i, j :: 0 <= i < j < |xs| ==> xs[i] != xs[j]
  }

  /**
   * `Array.from(new Set(xs))`: each distinct element once, in order of first appearance
   * (a Set iterates in insertion order and ignores repeated insertions).
   */
  function Dedup<T(==)>(xs: seq<T>): (r: seq<T>)
    ensures NoDuplicates(r)
    ensures forall i :: 0 <= i < |r| ==> r[i] in xs
    ensures forall i :: 0 <= i < |xs| ==> xs[i] in r
  {
    if xs == [] then []
    else
      var d := Dedup(xs[..|xs| - 1]);
      var last := xs[|xs| - 1];
      if last in d then d else d + [last]
  }

  /** A prefix that contains `x` finds it at the same position. */
  lemma IndexOfPrefix<T>(xs: seq<T>, k: nat, x: T)
    requires k <= |xs| && x in xs[..k]
    ensures IndexOf(xs, x) == IndexOf(xs[..k], x)
  {
    var a := IndexOf(xs[..k], x);
    var b := IndexOf(xs, x);
    assert xs[a] == x;
    assert b <= a;
    assert xs[..k][b] == x;
  }

  /** The distinct elements come out ordered by the position of their first occurrence. */
  lemma {:induction false} DedupFirstAppearance<T>(xs: seq<T>)
    ensures forall i, j :: 0 <= i < j < |Dedup(xs)| ==> IndexOf(xs, Dedup(xs)[i]) < IndexOf(xs, Dedup(xs)[j])
  {
    if xs != [] {
      var init := xs[..|xs| - 1];
      var d := Dedup(init);
      var last := xs[|xs| - 1];
      DedupFirstAppearance(init);
      forall i | 0 <= i < |d| ensures IndexOf(xs, d[i]) == IndexOf(init, d[i]) {
        IndexOfPrefix(xs, |xs| - 1, d[i]);
      }
      if last !in d {
        assert last !in init;
        forall i | 0 <= i < |d| ensures IndexOf(xs, d[i]) < IndexOf(xs, last) {
          assert IndexOf(xs, last) == |xs| - 1;
        }
      }
    }
  }
}
