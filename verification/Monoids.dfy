/** Sums in a commutative monoid do not depend on the order or the grouping of what is summed. */
module Monoids {
  import opened Permutations

  ghost predicate Laws<M(!new)>(op: (M, M) -> M, unit: M) {
    && (forall a, b :: op(a, b) == op(b, a))
    && (forall a, b, c :: op(op(a, b), c) == op(a, op(b, c)))
    && forall a :: op(a, unit) == a
  }

  function Sum<M>(op: (M, M) -> M, unit: M, xs: seq<M>): M {
    if xs == [] then unit else op(Sum(op, unit, xs[..|xs| - 1]), xs[|xs| - 1])
  }

  lemma {:induction false} SumConcat<M(!new)>(op: (M, M) -> M, unit: M, a: seq<M>, b: seq<M>)
    requires Laws(op, unit)
    ensures Sum(op, unit, a + b) == op(Sum(op, unit, a), Sum(op, unit, b))
    decreases |b|
  {
    hide Laws;
    if b == [] {
      Unit(op, unit, Sum(op, unit, a));
      assert a + b == a;
    } else {
      var n := |b| - 1;
      SumConcat(op, unit, a, b[..n]);
      assert (a + b)[..|a| + n] == a + b[..n];
      Associates(op, unit, Sum(op, unit, a), Sum(op, unit, b[..n]), b[n]);
    }
  }

  lemma Unit<M(!new)>(op: (M, M) -> M, unit: M, a: M)
    requires Laws(op, unit)
    ensures op(a, unit) == a && op(unit, a) == a
  {
    assert op(a, unit) == op(unit, a);
  }

  lemma Associates<M(!new)>(op: (M, M) -> M, unit: M, a: M, b: M, c: M)
    requires Laws(op, unit)
    ensures op(op(a, b), c) == op(a, op(b, c))
  {
  }

  lemma SumOne<M(!new)>(op: (M, M) -> M, unit: M, x: M)
    requires Laws(op, unit)
    ensures Sum(op, unit, [x]) == x
  {
    assert [x][..0] == [];
    assert op(unit, x) == op(x, unit);
  }

  lemma SumInsert<M(!new)>(op: (M, M) -> M, unit: M, a: seq<M>, x: M, b: seq<M>)
    requires Laws(op, unit)
    ensures Sum(op, unit, a + [x] + b) == op(Sum(op, unit, a + b), x)
  {
    hide Sum;
    SumConcat(op, unit, a + [x], b);
    SumConcat(op, unit, a, [x]);
    SumConcat(op, unit, a, b);
    SumOne(op, unit, x);
    var s, t := Sum(op, unit, a), Sum(op, unit, b);
    assert op(op(s, x), t) == op(s, op(x, t));
    assert op(x, t) == op(t, x);
    assert op(op(s, t), x) == op(s, op(t, x));
  }

  lemma {:induction false} SumPermutes<M(!new)>(op: (M, M) -> M, unit: M, a: seq<M>, b: seq<M>)
    requires Laws(op, unit) && multiset(a) == multiset(b)
    ensures Sum(op, unit, a) == Sum(op, unit, b)
    decreases |a|
  {
    hide Laws;
    if a == [] {
      assert multiset(b) == multiset{};
      assert b == [];
    } else {
      var n, x := |a| - 1, a[|a| - 1];
      assert a == a[..n] + [x];
      var i := Find(a[..n], b, x);
      SumPermutes(op, unit, a[..n], b[..i] + b[i + 1..]);
      SumInsert(op, unit, b[..i], x, b[i + 1..]);
      assert b == b[..i] + [x] + b[i + 1..];
    }
  }

  /** The sum of the parts is the sum of the whole. */
  lemma {:induction false} SumFlatten<M(!new)>(op: (M, M) -> M, unit: M, xss: seq<seq<M>>)
    requires Laws(op, unit)
    ensures Sum(op, unit, Flatten(xss)) == Sum(op, unit, Map((xs: seq<M>) => Sum(op, unit, xs), xss))
  {
    hide Laws;
    if xss != [] {
      var n := |xss| - 1;
      SumFlatten(op, unit, xss[..n]);
      SumConcat(op, unit, Flatten(xss[..n]), xss[n]);
      var f := (xs: seq<M>) => Sum(op, unit, xs);
      var m := Map(f, xss[..n]);
      assert (m + [f(xss[n])])[..|m|] == m;
    }
  }
}
