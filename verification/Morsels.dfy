/** One morsel's partial result, and how partial results add up. */
module Morsels {
  import opened Wrappers
  import opened Bytes
  import opened BlitzChunks
  import opened BlitzReader
  import opened Permutations
  import opened Monoids
  import opened Kernels

  /** A block of Int64 columns. */
  datatype Block = Block(columns: seq<seq<i64>>, rows: nat)

  datatype Query = Query(aggCol: nat, filter: Option<(nat, Op, i64)>, groupBy: Option<nat>)

  datatype Partial = Partial(scalar: Acc, groups: Groups)

  const NONE: Partial := Partial(EMPTY, map[])

  // ---- partial results ----

  function MergeGroups(g: Groups, h: Groups): Groups {
    map k | k in g.Keys + h.Keys ::
      if k !in h then g[k] else Kernels.Merge(if k in g then g[k] else EMPTY, h[k])
  }

  /** `Partial::merge`. */
  function MergePartial(p: Partial, o: Partial): Partial {
    Partial(Kernels.Merge(p.scalar, o.scalar), MergeGroups(p.groups, o.groups))
  }

  lemma AccLaws(a: Acc, b: Acc, c: Acc)
    ensures Kernels.Merge(a, b) == Kernels.Merge(b, a)
    ensures Kernels.Merge(Kernels.Merge(a, b), c) == Kernels.Merge(a, Kernels.Merge(b, c))
    ensures Kernels.Merge(a, EMPTY) == a && Kernels.Merge(EMPTY, a) == a
  {
    hide Wrap64;
    WrapAbsorbs(a.sum + b.sum, c.sum);
    WrapAbsorbs(a.sum, b.sum + c.sum);
    WrapKeeps(a.sum);
    assert a.sum + b.sum == b.sum + a.sum && a.sum + b.sum + c.sum == a.sum + (b.sum + c.sum);
  }

  lemma WrapKeeps(x: i64)
    ensures Wrap64(x) == x && Wrap64(0 + x) == x && Wrap64(x + 0) == x
  {
  }

  lemma GroupsCommute(g: Groups, h: Groups)
    ensures MergeGroups(g, h) == MergeGroups(h, g)
  {
    hide Kernels.Merge;
    forall k | k in g || k in h ensures MergeGroups(g, h)[k] == MergeGroups(h, g)[k] {
      var a, b := if k in g then g[k] else EMPTY, if k in h then h[k] else EMPTY;
      AccLaws(a, b, EMPTY);
      AccLaws(b, a, EMPTY);
    }
    assert MergeGroups(g, h) == MergeGroups(h, g);
  }

  lemma GroupsAssociate(f: Groups, g: Groups, h: Groups)
    ensures MergeGroups(MergeGroups(f, g), h) == MergeGroups(f, MergeGroups(g, h))
  {
    hide Kernels.Merge;
    var l, r := MergeGroups(MergeGroups(f, g), h), MergeGroups(f, MergeGroups(g, h));
    forall k | k in l ensures k in r && l[k] == r[k] {
      var a, b, c := if k in f then f[k] else EMPTY, if k in g then g[k] else EMPTY, if k in h then h[k] else EMPTY;
      AccLaws(a, b, c);
      AccLaws(b, c, EMPTY);
      AccLaws(a, c, EMPTY);
    }
    assert l == r;
  }

  lemma GroupsUnit(g: Groups)
    ensures MergeGroups(g, map[]) == g
  {
  }

  /** Partial results form a commutative monoid. */
  lemma PartialLaws()
    ensures Laws(MergePartial, NONE)
  {
    hide Kernels.Merge, MergeGroups;
    forall a: Partial, b: Partial ensures MergePartial(a, b) == MergePartial(b, a) {
      AccLaws(a.scalar, b.scalar, EMPTY);
      GroupsCommute(a.groups, b.groups);
    }
    forall a: Partial, b: Partial, c: Partial
      ensures MergePartial(MergePartial(a, b), c) == MergePartial(a, MergePartial(b, c))
    {
      AccLaws(a.scalar, b.scalar, c.scalar);
      GroupsAssociate(a.groups, b.groups, c.groups);
    }
    forall a: Partial ensures MergePartial(a, NONE) == a {
      AccLaws(a.scalar, EMPTY, EMPTY);
      GroupsUnit(a.groups);
    }
  }

  function Total(ps: seq<Partial>): Partial {
    Sum(MergePartial, NONE, ps)
  }

  // ---- what a query says of rows ----

  type Row = seq<i64>

  predicate Passes(row: Row, q: Query) {
    match q.filter
    case None => true
    case Some((c, op, lit)) => c < |row| && Hit(row[c], op, lit)
  }

  /** The partial result of a single row. */
  function OfRow(row: Row, q: Query): Partial {
    if !Passes(row, q) || q.aggCol >= |row| then NONE else
    match q.groupBy
    case None => Partial(Push(EMPTY, row[q.aggCol]), map[])
    case Some(g) => if g < |row| then Partial(EMPTY, map[row[g] := Push(EMPTY, row[q.aggCol])]) else NONE
  }

  /** The answer over some rows, whatever blocks they lie in. */
  function OfRows(rows: seq<Row>, q: Query): Partial {
    Total(Map((r: Row) => OfRow(r, q), rows))
  }

  lemma OfRowsConcat(a: seq<Row>, b: seq<Row>, q: Query)
    ensures OfRows(a + b, q) == MergePartial(OfRows(a, q), OfRows(b, q))
  {
    hide MergePartial, OfRow, Sum;
    PartialLaws();
    var f := (r: Row) => OfRow(r, q);
    MapConcat(f, a, b);
    SumConcat(MergePartial, NONE, Map(f, a), Map(f, b));
  }

  /** The order of the rows does not matter. */
  lemma OfRowsPermutes(a: seq<Row>, b: seq<Row>, q: Query)
    requires multiset(a) == multiset(b)
    ensures OfRows(a, q) == OfRows(b, q)
  {
    hide MergePartial, OfRow, Sum;
    PartialLaws();
    var f := (r: Row) => OfRow(r, q);
    MapPermutes(f, a, b);
    SumPermutes(MergePartial, NONE, Map(f, a), Map(f, b));
  }

  lemma {:induction false} NothingPasses(rows: seq<Row>, q: Query)
    requires forall r :: r in rows ==> !Passes(r, q)
    ensures OfRows(rows, q) == NONE
  {
    hide Passes, MergePartial;
    PartialLaws();
    if rows != [] {
      var n := |rows| - 1;
      NothingPasses(rows[..n], q);
      OfRowsSnoc(rows[..n], rows[n], q);
      assert rows == rows[..n] + [rows[n]];
      assert OfRow(rows[n], q) == NONE;
    }
  }

  lemma OfRowsSnoc(rows: seq<Row>, row: Row, q: Query)
    ensures OfRows(rows + [row], q) == MergePartial(OfRows(rows, q), OfRow(row, q))
  {
    hide MergePartial, OfRow;
    var f := (r: Row) => OfRow(r, q);
    MapConcat(f, rows, [row]);
    assert [row][..0] == [];
    assert Map(f, [row]) == [f(row)];
    var m := Map(f, rows);
    assert (m + [f(row)])[..|m|] == m;
  }

  // ---- exec_morsel ----

  predicate Has(b: Block, c: nat) {
    c < |b.columns| && |b.columns[c]| == b.rows
  }

  /** The block has the columns that the query names, in full. */
  predicate Covers(b: Block, q: Query) {
    && Has(b, q.aggCol) && (q.groupBy.Some? ==> Has(b, q.groupBy.value))
    && match q.filter
       case None => true
       case Some((c, _, _)) => Has(b, c)
  }

  /** Row `i`; a column that was not sent along reads as zero. */
  function RowAt(b: Block, i: nat): (row: Row)
    ensures |row| == |b.columns| && forall c :: 0 <= c < |row| && i < |b.columns[c]| ==> row[c] == b.columns[c][i]
  {
    seq(|b.columns|, c requires 0 <= c < |b.columns| => if i < |b.columns[c]| then b.columns[c][i] else 0)
  }

  function RowsUpTo(b: Block, k: nat): (rows: seq<Row>)
    ensures |rows| == k && forall i :: 0 <= i < k ==> rows[i] == RowAt(b, i)
  {
    if k == 0 then [] else RowsUpTo(b, k - 1) + [RowAt(b, k - 1)]
  }

  function RowsOf(b: Block): seq<Row> {
    RowsUpTo(b, b.rows)
  }

  /** The rows of a block that pass the filter, as a selection vector over the first `k`. */
  ghost function Selected(b: Block, q: Query, k: nat): (sel: seq<nat>)
    requires Covers(b, q) && k <= b.rows
    ensures forall i :: 0 <= i < |sel| ==> sel[i] < k
  {
    match q.filter
    case None => Range(k)
    case Some((c, op, lit)) => MatchingBound(Ints(b.columns[c]), op, Int(lit), k); Matching(Ints(b.columns[c]), op, Int(lit), k)
  }

  lemma MatchingBound(col: Column, op: Op, lit: Literal, n: nat)
    requires n <= Rows(col) && Comparable(TypeOf(col), op, lit)
    ensures forall i :: 0 <= i < |Matching(col, op, lit, n)| ==> Matching(col, op, lit, n)[i] < n
  {
    MatchingExact(col, op, lit, n);
    forall i | 0 <= i < |Matching(col, op, lit, n)| ensures Matching(col, op, lit, n)[i] < n {
      assert Matching(col, op, lit, n)[i] in Matching(col, op, lit, n);
    }
  }

  lemma SelectedNext(b: Block, q: Query, k: nat)
    requires Covers(b, q) && k < b.rows
    ensures Selected(b, q, k + 1) == Selected(b, q, k) + if Passes(RowAt(b, k), q) then [k] else []
  {
  }

  /** The partial result of the selected rows, as the kernels compute it. */
  ghost function KernelResult(b: Block, q: Query, sel: seq<nat>): Partial
    requires Covers(b, q) && forall i :: 0 <= i < |sel| ==> sel[i] < b.rows
  {
    match q.groupBy
    case None => Partial(FoldAcc(Pick(b.columns[q.aggCol], sel)), map[])
    case Some(g) => Partial(EMPTY, FoldGroups(Rows2(b.columns[g], b.columns[q.aggCol], sel)))
  }

  lemma PushIsMerge(a: Acc, v: i64)
    ensures Push(a, v) == Kernels.Merge(a, Push(EMPTY, v))
  {
    hide Wrap64;
    WrapKeeps(v);
    assert 0 + v == v;
  }

  lemma KernelNext(b: Block, q: Query, sel: seq<nat>, k: nat)
    requires Covers(b, q) && (forall i :: 0 <= i < |sel| ==> sel[i] < b.rows) && k < b.rows
    requires Passes(RowAt(b, k), q)
    ensures KernelResult(b, q, sel + [k]) == MergePartial(KernelResult(b, q, sel), OfRow(RowAt(b, k), q))
  {
    hide Passes, Kernels.Merge, Push;
    var v := b.columns[q.aggCol][k];
    AccLaws(EMPTY, EMPTY, EMPTY);
    match q.groupBy {
      case None =>
        var vals := Pick(b.columns[q.aggCol], sel);
        assert Pick(b.columns[q.aggCol], sel + [k]) == vals + [v];
        assert (vals + [v])[..|vals|] == vals;
        PushIsMerge(FoldAcc(vals), v);
        GroupsUnit(map[]);
      case Some(g) =>
        var rows, key := Rows2(b.columns[g], b.columns[q.aggCol], sel), b.columns[g][k];
        assert Rows2(b.columns[g], b.columns[q.aggCol], sel + [k]) == rows + [(key, v)];
        assert (rows + [(key, v)])[..|rows|] == rows;
        PushKeyIsMerge(FoldGroups(rows), key, v);
    }
  }

  lemma PushKeyIsMerge(g: Groups, k: i64, v: i64)
    ensures PushKey(g, k, v) == MergeGroups(g, map[k := Push(EMPTY, v)])
  {
    hide Kernels.Merge, Push;
    PushIsMerge(if k in g then g[k] else EMPTY, v);
  }

  /** The kernels over the selected rows give the answer over the block's rows. */
  lemma {:induction false} KernelIsRows(b: Block, q: Query, k: nat)
    requires Covers(b, q) && k <= b.rows
    ensures KernelResult(b, q, Selected(b, q, k)) == OfRows(RowsUpTo(b, k), q)
  {
    hide Passes, MergePartial, KernelResult, Selected, OfRows;
    if k == 0 {
      NoKernel(b, q);
    } else {
      KernelIsRows(b, q, k - 1);
      SelectedNext(b, q, k - 1);
      OfRowsSnoc(RowsUpTo(b, k - 1), RowAt(b, k - 1), q);
      var sel := Selected(b, q, k - 1);
      if Passes(RowAt(b, k - 1), q) {
        KernelNext(b, q, sel, k - 1);
      } else {
        assert sel + [] == sel;
        PartialLaws();
        NotPassing(RowAt(b, k - 1), q, OfRows(RowsUpTo(b, k - 1), q));
      }
    }
  }

  lemma NotPassing(row: Row, q: Query, p: Partial)
    requires !Passes(row, q)
    ensures MergePartial(p, OfRow(row, q)) == p
  {
    hide MergePartial, Passes;
    PartialLaws();
  }

  lemma NoKernel(b: Block, q: Query)
    requires Covers(b, q)
    ensures KernelResult(b, q, Selected(b, q, 0)) == NONE == OfRows(RowsUpTo(b, 0), q)
  {
  }

  lemma PickAll(data: seq<i64>)
    ensures Pick(data, Range(|data|)) == data
  {
  }

  /** `exec_morsel`: filter, then a grouped or a plain aggregate. */
  method ExecMorsel(b: Block, q: Query) returns (p: Partial)
    requires Covers(b, q)
    ensures p == OfRows(RowsOf(b), q)
  {
    hide FoldAcc, FoldGroups, OfRows, Matching, Pick;
    var sel: Option<seq<nat>> := None;
    if q.filter.Some? {
      var (c, op, lit) := q.filter.value;
      var s := FilterI64(b.columns[c], op, lit);
      sel := Some(s);
    }
    ghost var all := Selected(b, q, b.rows);
    KernelIsRows(b, q, b.rows);
    var data := b.columns[q.aggCol];
    if q.groupBy.Some? {
      var groups := GroupAgg(b.columns[q.groupBy.value], data, sel);
      p := Partial(EMPTY, groups);
    } else {
      var acc;
      if sel.Some? {
        acc := SumI64Sel(data, sel.value);
      } else {
        acc := SumI64(data);
        PickAll(data);
      }
      p := Partial(acc, map[]);
    }
  }

  /** Sending a worker only the columns that the query names gives the same partial result. */
  lemma {:induction false} ShippedRows(b: Block, shipped: Block, q: Query, k: nat)
    requires Covers(b, q) && Covers(shipped, q) && shipped.rows == b.rows && k <= b.rows
    requires shipped.columns[q.aggCol] == b.columns[q.aggCol]
    requires q.groupBy.Some? ==> shipped.columns[q.groupBy.value] == b.columns[q.groupBy.value]
    requires q.filter.Some? ==> shipped.columns[q.filter.value.0] == b.columns[q.filter.value.0]
    ensures OfRows(RowsUpTo(shipped, k), q) == OfRows(RowsUpTo(b, k), q)
  {
    hide OfRows, MergePartial;
    if k > 0 {
      ShippedRows(b, shipped, q, k - 1);
      OfRowsSnoc(RowsUpTo(shipped, k - 1), RowAt(shipped, k - 1), q);
      OfRowsSnoc(RowsUpTo(b, k - 1), RowAt(b, k - 1), q);
    } else {
      assert RowsUpTo(shipped, 0) == RowsUpTo(b, 0);
    }
  }
}
