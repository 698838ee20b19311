/** Accumulators and their groups. */
module Aggregate {
  /* Aggregation state: accumulators per group, folded row by row or merged from partial results. */

  import opened Wrappers
  import opened Bytes
  import opened LateScan
  import opened Permutations
  import opened BlitzChunks

  datatype Acc = Acc(sum: i64, count: i64, min: i64, max: i64)

  /** One row as aggregation sees it: its group, and for each aggregate a value, or nothing but its presence. */
  datatype Item = Item(key: seq<Cell>, inputs: seq<Option<i64>>)

  type Groups = map<seq<Cell>, seq<Acc>>

  const NEW: Acc := Acc(0, 0, 0x7FFF_FFFF_FFFF_FFFF, -0x8000_0000_0000_0000)

  function Add(a: Acc, v: i64): Acc {
    Acc(Wrap64(a.sum + v), Wrap64(a.count + 1), if v < a.min then v else a.min, if v > a.max then v else a.max)
  }

  function AddCountOnly(a: Acc): Acc {
    a.(count := Wrap64(a.count + 1))
  }

  function Merge(a: Acc, o: Acc): Acc {
    Acc(Wrap64(a.sum + o.sum), Wrap64(a.count + o.count),
        if o.min < a.min then o.min else a.min, if o.max > a.max then o.max else a.max)
  }

  function Step(a: Acc, input: Option<i64>): Acc {
    match input
    case None => AddCountOnly(a)
    case Some(v) => Add(a, v)
  }

  lemma WrapKeeps(x: i64)
    ensures Wrap64(x) == x
  {
  }

  lemma WrapAssociates(x: int, y: int, z: int)
    ensures Wrap64(Wrap64(x + y) + z) == Wrap64(x + Wrap64(y + z))
  {
    hide Wrap64;
    WrapAbsorbs(x + y, z);
    WrapAbsorbs(x, y + z);
    assert (x + y) + z == x + (y + z);
  }

  /** Accumulators form a commutative monoid, and adding a row is merging the accumulator of that row. */
  lemma MergeLaws(a: Acc, b: Acc, c: Acc)
    ensures Merge(a, b) == Merge(b, a)
    ensures Merge(Merge(a, b), c) == Merge(a, Merge(b, c))
    ensures Merge(a, NEW) == a
  {
    hide Wrap64;
    WrapAssociates(a.sum, b.sum, c.sum);
    WrapAssociates(a.count, b.count, c.count);
    WrapKeeps(a.sum);
    WrapKeeps(a.count);
    assert a.sum + b.sum == b.sum + a.sum && a.count + b.count == b.count + a.count;
  }

  lemma StepIsMerge(a: Acc, input: Option<i64>)
    ensures Step(a, input) == Merge(a, Step(NEW, input))
  {
    hide Wrap64;
    var v := if input.Some? then input.value else 0;
    WrapKeeps(v);
    WrapKeeps(1);
    WrapKeeps(a.sum);
    assert 0 + v == v && 0 + 1 == 1 && a.sum + 0 == a.sum;
  }

  // ---- groups ----

  function Steps(accs: seq<Acc>, inputs: seq<Option<i64>>): (r: seq<Acc>)
    ensures |r| == |accs|
    ensures forall j :: 0 <= j < |accs| ==> r[j] == if j < |inputs| then Step(accs[j], inputs[j]) else accs[j]
  {
    seq(|accs|, j requires 0 <= j < |accs| => if j < |inputs| then Step(accs[j], inputs[j]) else accs[j])
  }

  function News(n: nat): (r: seq<Acc>)
    ensures |r| == n && forall j :: 0 <= j < n ==> r[j] == NEW
  {
    seq(n, _ => NEW)
  }

  /** `zip` stops at the shorter list. */
  function Merges(a: seq<Acc>, b: seq<Acc>): (r: seq<Acc>)
    ensures |r| == |a|
    ensures forall j :: 0 <= j < |a| ==> r[j] == if j < |b| then Merge(a[j], b[j]) else a[j]
  {
    seq(|a|, j requires 0 <= j < |a| => if j < |b| then Merge(a[j], b[j]) else a[j])
  }

  function Consume(g: Groups, x: Item): Groups {
    g[x.key := Steps(if x.key in g then g[x.key] else News(|x.inputs|), x.inputs)]
  }

  function Fold(items: seq<Item>): Groups {
    if items == [] then map[] else Consume(Fold(items[..|items| - 1]), items[|items| - 1])
  }

  function MergeGroups(g: Groups, h: Groups): Groups {
    map k | k in g.Keys + h.Keys ::
      if k !in h then g[k] else if k !in g then h[k] else Merges(g[k], h[k])
  }

  /** Every group has `n` accumulators. */
  ghost predicate Arity(g: Groups, n: nat) {
    forall k :: k in g ==> |g[k]| == n
  }

  ghost predicate Items(items: seq<Item>, n: nat) {
    forall i :: 0 <= i < |items| ==> |items[i].inputs| == n
  }

  lemma {:induction false} FoldArity(items: seq<Item>, n: nat)
    requires Items(items, n)
    ensures Arity(Fold(items), n)
  {
    hide Steps, News;
    if items != [] {
      FoldArity(items[..|items| - 1], n);
    }
  }

  lemma MergesLaws(a: seq<Acc>, b: seq<Acc>, c: seq<Acc>)
    requires |a| == |b| == |c|
    ensures Merges(a, b) == Merges(b, a)
    ensures Merges(Merges(a, b), c) == Merges(a, Merges(b, c))
  {
    hide Merge;
    forall j | 0 <= j < |a|
      ensures Merge(a[j], b[j]) == Merge(b[j], a[j]) && Merge(Merge(a[j], b[j]), c[j]) == Merge(a[j], Merge(b[j], c[j]))
    {
      MergeLaws(a[j], b[j], c[j]);
    }
    assert Merges(a, b) == Merges(b, a);
    assert Merges(Merges(a, b), c) == Merges(a, Merges(b, c));
  }

  lemma MergeGroupsCommutes(g: Groups, h: Groups, n: nat)
    requires Arity(g, n) && Arity(h, n)
    ensures MergeGroups(g, h) == MergeGroups(h, g)
  {
    hide Merges;
    forall k | k in g && k in h ensures Merges(g[k], h[k]) == Merges(h[k], g[k]) {
      MergesLaws(g[k], h[k], h[k]);
    }
  }

  lemma MergeGroupsAssociates(f: Groups, g: Groups, h: Groups, n: nat)
    requires Arity(f, n) && Arity(g, n) && Arity(h, n)
    ensures MergeGroups(MergeGroups(f, g), h) == MergeGroups(f, MergeGroups(g, h))
  {
    hide Merges, MergeGroups;
    var l, r := MergeGroups(MergeGroups(f, g), h), MergeGroups(f, MergeGroups(g, h));
    forall k ensures (k in l <==> k in r) && (k in l && k in r ==> l[k] == r[k]) {
      AssociatesAt(f, g, h, k, n);
    }
    assert l == r;
  }

  lemma AssociatesAt(f: Groups, g: Groups, h: Groups, k: seq<Cell>, n: nat)
    requires Arity(f, n) && Arity(g, n) && Arity(h, n)
    ensures var l, r := MergeGroups(MergeGroups(f, g), h), MergeGroups(f, MergeGroups(g, h));
            (k in l <==> k in r) && (k in l ==> l[k] == r[k])
  {
    hide Merges;
    if k in f && k in g && k in h {
      MergesLaws(f[k], g[k], h[k]);
    }
  }

  lemma ConsumeIsMerge(g: Groups, x: Item)
    requires Arity(g, |x.inputs|)
    ensures Consume(g, x) == MergeGroups(g, Consume(map[], x))
  {
    hide Step, Merge;
    if x.key in g {
      var a := g[x.key];
      forall j | 0 <= j < |a| ensures Step(a[j], x.inputs[j]) == Merge(a[j], Step(NEW, x.inputs[j])) {
        StepIsMerge(a[j], x.inputs[j]);
      }
      assert Steps(a, x.inputs) == Merges(a, Steps(News(|x.inputs|), x.inputs));
    }
  }

  /** Folding is a homomorphism: partial results of any split merge to the fold of the whole. */
  lemma {:induction false} FoldConcat(a: seq<Item>, b: seq<Item>, n: nat)
    requires Items(a, n) && Items(b, n)
    ensures Fold(a + b) == MergeGroups(Fold(a), Fold(b))
    decreases |b|
  {
    hide MergeGroups, Consume, Items, Arity;
    if b == [] {
      MergeEmpty(Fold(a));
      assert a + b == a;
    } else {
      var m, x := |b| - 1, b[|b| - 1];
      ItemsParts(b, n);
      ItemsConcat(a, b[..m], n);
      FoldConcat(a, b[..m], n);
      assert (a + b)[..|a| + m] == a + b[..m];
      FoldArity(a, n);
      FoldArity(b[..m], n);
      FoldArity(a + b[..m], n);
      FoldArity([x], n);
      FoldOne(x);
      ConsumeIsMerge(Fold(a + b[..m]), x);
      ConsumeIsMerge(Fold(b[..m]), x);
      MergeGroupsAssociates(Fold(a), Fold(b[..m]), Fold([x]), n);
    }
  }

  lemma FoldOne(x: Item)
    ensures Fold([x]) == Consume(map[], x)
  {
    assert [x][..0] == [];
  }

  lemma MergeEmpty(g: Groups)
    ensures MergeGroups(g, Fold([])) == g && MergeGroups(Fold([]), g) == g
  {
  }

  lemma ItemsParts(b: seq<Item>, n: nat)
    requires Items(b, n) && b != []
    ensures Items(b[..|b| - 1], n) && Items([b[|b| - 1]], n) && |b[|b| - 1].inputs| == n
  {
  }

  lemma ItemsConcat(a: seq<Item>, b: seq<Item>, n: nat)
    ensures Items(a + b, n) <==> Items(a, n) && Items(b, n)
  {
    if Items(a + b, n) {
      forall i | 0 <= i < |a| ensures |a[i].inputs| == n {
        assert (a + b)[i] == a[i];
      }
      forall i | 0 <= i < |b| ensures |b[i].inputs| == n {
        assert (a + b)[|a| + i] == b[i];
      }
    }
  }

  /** The fold does not depend on the order of the rows. */
  lemma {:induction false} FoldPermutes(a: seq<Item>, b: seq<Item>, n: nat)
    requires multiset(a) == multiset(b) && Items(a, n) && Items(b, n)
    ensures Fold(a) == Fold(b)
    decreases |a|
  {
    hide Fold, MergeGroups, Items, Arity;
    if a == [] {
      assert multiset(b) == multiset{};
      assert b == [];
    } else {
      var m, x := |a| - 1, a[|a| - 1];
      assert a == a[..m] + [x];
      var i := Find(a[..m], b, x);
      var b1, b2 := b[..i], b[i + 1..];
      assert b == (b1 + [x]) + b2;
      ItemsParts(a, n);
      ItemsConcat(b1 + [x], b2, n);
      ItemsConcat(b1, [x], n);
      ItemsConcat(b1, b2, n);
      FoldPermutes(a[..m], b1 + b2, n);
      FoldConcat(a[..m], [x], n);
      FoldConcat(b1 + [x], b2, n);
      FoldConcat(b1, [x], n);
      FoldConcat(b1, b2, n);
      FoldArity(b1, n);
      FoldArity(b2, n);
      FoldArity([x], n);
      MergeGroupsAssociates(Fold(b1), Fold([x]), Fold(b2), n);
      MergeGroupsAssociates(Fold(b1), Fold(b2), Fold([x]), n);
      MergeGroupsCommutes(Fold([x]), Fold(b2), n);
    }
  }

  // ---- what an accumulator says about the rows of its group ----

  function Values(inputs: seq<Option<i64>>): seq<i64> {
    if inputs == [] then [] else
    var n := |inputs| - 1;
    Values(inputs[..n]) + if inputs[n].Some? then [inputs[n].value] else []
  }

  function SumOf(vals: seq<i64>): int {
    if vals == [] then 0 else SumOf(vals[..|vals| - 1]) + vals[|vals| - 1]
  }

  /** Wrapped sum and count, exact least and greatest value. */
  ghost predicate Describes(a: Acc, inputs: seq<Option<i64>>) {
    && a.sum == Wrap64(SumOf(Values(inputs))) && a.count == Wrap64(|inputs|)
    && Zone(Values(inputs), a.min, a.max)
  }

  /** What the rows of group `k` hand to aggregate `j`. */
  function Inputs(items: seq<Item>, k: seq<Cell>, j: nat): seq<Option<i64>> {
    if items == [] then [] else
    var x := items[|items| - 1];
    Inputs(items[..|items| - 1], k, j) + if x.key == k && j < |x.inputs| then [x.inputs[j]] else []
  }

  lemma NewDescribes()
    ensures Describes(NEW, [])
  {
  }

  lemma StepDescribes(a: Acc, inputs: seq<Option<i64>>, input: Option<i64>)
    requires Describes(a, inputs)
    ensures Describes(Step(a, input), inputs + [input])
  {
    hide Wrap64, Zone;
    var vals := Values(inputs);
    assert (inputs + [input])[..|inputs|] == inputs;
    WrapAbsorbs(|inputs|, 1);
    match input {
      case None =>
        assert vals + [] == vals;
      case Some(v) =>
        assert (vals + [v])[..|vals|] == vals;
        WrapAbsorbs(SumOf(vals), v);
        OneZone(v);
        ZoneConcat(vals, [v], a.min, a.max, v, v);
    }
  }

  lemma OneZone(v: i64)
    ensures Zone([v], v, v)
  {
  }

  ghost predicate Occurs(items: seq<Item>, k: seq<Cell>) {
    exists i :: 0 <= i < |items| && items[i].key == k
  }

  /** Group `k` is present exactly when its key occurs, and is described by exactly the rows with that key. */
  ghost predicate GroupMeans(g: Groups, items: seq<Item>, n: nat, k: seq<Cell>) {
    && (k in g <==> Occurs(items, k))
    && (k in g ==> |g[k]| == n && forall j :: 0 <= j < n ==> Describes(g[k][j], Inputs(items, k, j)))
    && (k !in g ==> forall j :: 0 <= j < n ==> Inputs(items, k, j) == [])
  }

  lemma InputsSnoc(items: seq<Item>, x: Item, k: seq<Cell>, j: nat)
    ensures Inputs(items + [x], k, j) == Inputs(items, k, j) + if x.key == k && j < |x.inputs| then [x.inputs[j]] else []
  {
    assert (items + [x])[..|items|] == items;
  }

  lemma OccursSnoc(items: seq<Item>, x: Item, k: seq<Cell>)
    ensures Occurs(items + [x], k) <==> Occurs(items, k) || x.key == k
  {
    var all := items + [x];
    assert forall i :: 0 <= i < |items| ==> all[i] == items[i];
    assert all[|items|] == x;
  }

  lemma OtherGroup(g: Groups, items: seq<Item>, x: Item, n: nat, k: seq<Cell>)
    requires GroupMeans(g, items, n, k) && |x.inputs| == n && x.key != k
    ensures GroupMeans(Consume(g, x), items + [x], n, k)
  {
    hide Describes, Inputs, Occurs, Steps;
    OccursSnoc(items, x, k);
    forall j | 0 <= j < n ensures Inputs(items + [x], k, j) == Inputs(items, k, j) {
      InputsSnoc(items, x, k, j);
    }
  }

  lemma SameGroup(g: Groups, items: seq<Item>, x: Item, n: nat)
    requires GroupMeans(g, items, n, x.key) && |x.inputs| == n
    ensures GroupMeans(Consume(g, x), items + [x], n, x.key)
  {
    hide Describes, Inputs, Occurs, Step;
    var k := x.key;
    OccursSnoc(items, x, k);
    NewDescribes();
    var accs := if k in g then g[k] else News(n);
    forall j | 0 <= j < n ensures Describes(Consume(g, x)[k][j], Inputs(items + [x], k, j)) {
      InputsSnoc(items, x, k, j);
      StepDescribes(accs[j], Inputs(items, k, j), x.inputs[j]);
    }
  }

  lemma {:induction false} FoldMeaning(items: seq<Item>, n: nat, k: seq<Cell>)
    requires Items(items, n)
    ensures GroupMeans(Fold(items), items, n, k)
  {
    hide GroupMeans, Consume;
    if items == [] {
      NoGroups(n, k);
    } else {
      var m := |items| - 1;
      var x := items[m];
      FoldMeaning(items[..m], n, k);
      assert items == items[..m] + [x];
      if x.key == k {
        SameGroup(Fold(items[..m]), items[..m], x, n);
      } else {
        OtherGroup(Fold(items[..m]), items[..m], x, n, k);
      }
    }
  }

  lemma NoGroups(n: nat, k: seq<Cell>)
    ensures GroupMeans(Fold([]), [], n, k)
  {
  }
}
