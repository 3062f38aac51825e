/** Small value types and sequence facts shared by the other modules. */
module Prelude {

  datatype Option<+T> = None | Some(value: T)

  /** The elements of a sequence, as a set. */
  function Elements<T>(xs: seq<T>): set<T> {
    set x | x in xs
  }

  predicate Distinct<T(==)>(xs: seq<T>) {
    forall i, j :: 0 <= i < j < |xs| ==> xs[i] != xs[j]
  }

  lemma DistinctCardinality<T>(xs: seq<T>)
    requires Distinct(xs)
    ensures |Elements(xs)| == |xs|
  {
    if xs == [] {
    } else {
      DistinctCardinality(xs[1..]);
      assert Elements(xs) == {xs[0]} + Elements(xs[1..]);
    }
  }

  lemma SubsetSize<T>(a: set<T>, b: set<T>)
    requires a <= b
    ensures |a| <= |b|
  {
    assert b == a + (b - a);
  }

  /** The index of the first element satisfying `p`, or `|xs|`. */
  function First<T>(xs: seq<T>, p: T -> bool): (r: nat)
    ensures r <= |xs|
    ensures r < |xs| ==> p(xs[r])
    ensures forall j :: 0 <= j < r ==> !p(xs[j])
  {
    if xs == [] then 0
    else if p(xs[0]) then 0
    else 1 + First(xs[1..], p)
  }

  function Sum<T>(f: T -> nat, xs: seq<T>): nat {
    if xs == [] then 0 else f(xs[0]) + Sum(f, xs[1..])
  }

  lemma {:induction false} SumUpdate<T>(f: T -> nat, xs: seq<T>, i: nat, y: T)
    requires i < |xs|
    ensures Sum(f, xs[i := y]) + f(xs[i]) == Sum(f, xs) + f(y)
  {
    if i == 0 {
      assert xs[i := y][1..] == xs[1..];
    } else {
      assert xs[i := y][1..] == xs[1..][i - 1 := y];
      SumUpdate(f, xs[1..], i - 1, y);
    }
  }

  /** Pointwise comparison carries over to the sums, strictly if one point is strict. */
  lemma {:induction false} SumMonotone<T>(f: T -> nat, g: T -> nat, xs: seq<T>, ys: seq<T>)
    requires |xs| == |ys|
    requires forall i :: 0 <= i < |xs| ==> f(xs[i]) <= g(ys[i])
    ensures Sum(f, xs) <= Sum(g, ys)
    ensures (exists i :: 0 <= i < |xs| && f(xs[i]) < g(ys[i])) ==> Sum(f, xs) < Sum(g, ys)
  {
    if xs != [] {
      SumMonotone(f, g, xs[1..], ys[1..]);
      if i :| 0 <= i < |xs| && f(xs[i]) < g(ys[i]) {
        if i > 0 {
          assert f(xs[1..][i - 1]) < g(ys[1..][i - 1]);
        }
      }
    }
  }

  lemma {:induction false} SumBound<T>(f: T -> nat, xs: seq<T>, b: nat)
    requires forall i :: 0 <= i < |xs| ==> f(xs[i]) <= b
    ensures Sum(f, xs) <= b * |xs|
  {
    if xs != [] {
      SumBound(f, xs[1..], b);
      assert b * |xs| == b + b * (|xs| - 1);
    }
  }

  lemma AppendAssociates<T>(a: seq<T>, b: seq<T>, c: seq<T>)
    ensures a + (b + c) == a + b + c
  {
  }

  lemma HeadAndRest<T>(xs: seq<T>, ys: seq<T>)
    requires xs != []
    ensures [xs[0]] + (xs[1..] + ys) == xs + ys
  {
  }

  /** Appending one good step to a sequence of good steps. */
  lemma AppendStep<S(!new), A(!new)>(ss: seq<S>, acts: seq<A>, a: A, s': S, good: S -> bool, step: (S, A, S) -> bool)
    requires |ss| == |acts| + 1 && step(ss[|acts|], a, s')
    requires forall t :: 0 <= t < |acts| && good(ss[t]) ==> step(ss[t], acts[t], ss[t + 1])
    ensures var ss', acts' := ss + [s'], acts + [a];
            forall t :: 0 <= t < |acts'| && good(ss'[t]) ==> step(ss'[t], acts'[t], ss'[t + 1])
  {
  }
}
