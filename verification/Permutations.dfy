/** Sequences up to order: their multisets, flattening and mapping them, and ranges of numbers. */
module Permutations {
  lemma Cancel<T>(m: multiset<T>, n: multiset<T>, x: T)
    requires m + multiset{x} == n + multiset{x}
    ensures m == n
  {
    assert m == (m + multiset{x}) - multiset{x};
    assert n == (n + multiset{x}) - multiset{x};
  }

  /** Where the last element of a sequence stands in a rearrangement of it. */
  lemma Find<T>(a: seq<T>, b: seq<T>, x: T) returns (i: nat)
    requires multiset(a + [x]) == multiset(b)
    ensures i < |b| && b[i] == x && multiset(a) == multiset(b[..i] + b[i + 1..])
  {
    assert x in multiset(b);
    i :| 0 <= i < |b| && b[i] == x;
    assert b == b[..i] + [x] + b[i + 1..];
    assert multiset(b) == multiset(b[..i] + b[i + 1..]) + multiset{x};
    assert multiset(a + [x]) == multiset(a) + multiset{x};
    Cancel(multiset(a), multiset(b[..i] + b[i + 1..]), x);
  }

  function Flatten<T>(xss: seq<seq<T>>): seq<T> {
    if xss == [] then [] else Flatten(xss[..|xss| - 1]) + xss[|xss| - 1]
  }

  lemma {:induction false} FlattenConcat<T>(a: seq<seq<T>>, b: seq<seq<T>>)
    ensures Flatten(a + b) == Flatten(a) + Flatten(b)
    decreases |b|
  {
    if b == [] {
      assert a + b == a;
    } else {
      var m := |b| - 1;
      FlattenConcat(a, b[..m]);
      assert (a + b)[..|a| + m] == a + b[..m];
    }
  }

  lemma FlattenOne<T>(x: seq<T>)
    ensures Flatten([x]) == x
  {
    assert [x][..0] == [];
  }

  lemma FlattenInsert<T>(b1: seq<seq<T>>, x: seq<T>, b2: seq<seq<T>>)
    ensures multiset(Flatten(b1 + [x] + b2)) == multiset(Flatten(b1 + b2)) + multiset(x)
  {
    hide Flatten;
    FlattenConcat(b1 + [x], b2);
    FlattenConcat(b1, [x]);
    FlattenConcat(b1, b2);
    FlattenOne(x);
  }

  /** Rearranging the parts rearranges the whole. */
  lemma {:induction false} FlattenPermutes<T>(a: seq<seq<T>>, b: seq<seq<T>>)
    requires multiset(a) == multiset(b)
    ensures multiset(Flatten(a)) == multiset(Flatten(b))
    decreases |a|
  {
    hide Flatten;
    if a == [] {
      assert multiset(b) == multiset{};
      assert b == [];
    } else {
      var m, x := |a| - 1, a[|a| - 1];
      assert a == a[..m] + [x] + [];
      var i := Find(a[..m], b, x);
      FlattenPermutes(a[..m], b[..i] + b[i + 1..]);
      FlattenInsert(a[..m], x, []);
      FlattenInsert(b[..i], x, b[i + 1..]);
      assert a[..m] + [] == a[..m];
      assert b == b[..i] + [x] + b[i + 1..];
    }
  }

  /** The numbers below `n`. */
  function Range(n: nat): (s: seq<nat>)
    ensures |s| == n && forall i :: 0 <= i < n ==> s[i] == i
  {
    if n == 0 then [] else Range(n - 1) + [n - 1]
  }

  function Map<A, B>(f: A -> B, xs: seq<A>): (ys: seq<B>)
    ensures |ys| == |xs| && forall i :: 0 <= i < |xs| ==> ys[i] == f(xs[i])
  {
    if xs == [] then [] else Map(f, xs[..|xs| - 1]) + [f(xs[|xs| - 1])]
  }

  lemma {:induction false} MapConcat<A, B>(f: A -> B, a: seq<A>, b: seq<A>)
    ensures Map(f, a + b) == Map(f, a) + Map(f, b)
  {
  }

  lemma {:induction false} MapPermutes<A, B>(f: A -> B, a: seq<A>, b: seq<A>)
    requires multiset(a) == multiset(b)
    ensures multiset(Map(f, a)) == multiset(Map(f, b))
    decreases |a|
  {
    hide Map;
    if a == [] {
      assert multiset(b) == multiset{};
      assert b == [];
      assert Map(f, a) == Map(f, b);
    } else {
      var m, x := |a| - 1, a[|a| - 1];
      assert a == a[..m] + [x];
      var i := Find(a[..m], b, x);
      assert b == (b[..i] + [x]) + b[i + 1..];
      MapPermutes(f, a[..m], b[..i] + b[i + 1..]);
      MapConcat(f, a[..m], [x]);
      MapConcat(f, b[..i] + [x], b[i + 1..]);
      MapConcat(f, b[..i], [x]);
      MapConcat(f, b[..i], b[i + 1..]);
    }
  }
}
