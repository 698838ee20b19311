/** From groups to output rows. */
module Engine {
  import opened Wrappers
  import opened Bytes
  import opened LateScan
  import opened Rows
  import opened BlitzChunks
  import opened Permutations
  import opened Plan
  import opened Semantics
  import A = Aggregate

  /** The aggregates of the select list, in order. */
  function Aggs(select: seq<Item>): (aggs: seq<Item>)
    ensures forall it :: it in aggs ==> !it.ItemCol?
  {
    if select == [] then [] else
    var n := |select| - 1;
    Aggs(select[..n]) + if select[n].ItemCol? then [] else [select[n]]
  }

  /** Which aggregate select item `i` is. */
  function AggIndex(select: seq<Item>, i: nat): nat
    requires i <= |select|
  {
    |Aggs(select[..i])|
  }

  lemma {:induction false} AggAt(select: seq<Item>, i: nat)
    requires i < |select| && !select[i].ItemCol?
    ensures AggIndex(select, i) < |Aggs(select)| && Aggs(select)[AggIndex(select, i)] == select[i]
    decreases |select|
  {
    var n := |select| - 1;
    if i < n {
      AggAt(select[..n], i);
      assert select[..n][..i] == select[..i];
    }
  }

  lemma {:induction false} HasAggs(select: seq<Item>)
    ensures HasAgg(select) <==> Aggs(select) != []
    decreases |select|
  {
    if select != [] {
      var n := |select| - 1;
      HasAggs(select[..n]);
      if HasAgg(select[..n]) {
        var i :| 0 <= i < n && !select[..n][i].ItemCol?;
        assert !select[i].ItemCol?;
      }
      if HasAgg(select) {
        var i :| 0 <= i < |select| && !select[i].ItemCol?;
        assert i < n ==> !select[..n][i].ItemCol?;
      }
    }
  }

  /** A joined row, as `consume_row` sees it. */
  function RowItem(select: seq<Item>, groupBy: seq<Place>, j: JoinedRow): (x: A.Item)
    ensures |x.inputs| == |Aggs(select)|
    ensures forall i :: 0 <= i < |x.inputs| ==> x.inputs[i] == Input(Aggs(select)[i], j)
  {
    var aggs := Aggs(select);
    A.Item(KeyOf(groupBy, j), seq(|aggs|, i requires 0 <= i < |aggs| => Input(aggs[i], j)))
  }

  function RowItems(select: seq<Item>, groupBy: seq<Place>, js: seq<JoinedRow>): (xs: seq<A.Item>)
    ensures |xs| == |js| && forall i :: 0 <= i < |xs| ==> xs[i] == RowItem(select, groupBy, js[i])
  {
    seq(|js|, i requires 0 <= i < |js| => RowItem(select, groupBy, js[i]))
  }

  function PlainRows(select: seq<Item>, js: seq<JoinedRow>): seq<seq<Val>> {
    Map((j: JoinedRow) => PlainRow(select, j), js)
  }

  /** `Acc::result`. */
  function AccResult(a: A.Acc, f: AggFn): Val {
    match f
    case Sum => VI(a.sum)
    case Count => VI(a.count)
    case Min => VI(a.min)
    case Max => VI(a.max)
    case Avg => VF(if a.count == 0 then 0.0 else a.sum as real / a.count as real)
  }

  /** `group_pos`: the last position of a column in the group key. */
  function LastIndex(groupBy: seq<Place>, c: Place): Option<nat> {
    if groupBy == [] then None else
    var n := |groupBy| - 1;
    if groupBy[n] == c then Some(n) else LastIndex(groupBy[..n], c)
  }

  lemma {:induction false} LastIndexFinds(groupBy: seq<Place>, c: Place)
    ensures match LastIndex(groupBy, c)
            case None => c !in groupBy
            case Some(i) => i < |groupBy| && groupBy[i] == c
  {
    if groupBy != [] {
      var n := |groupBy| - 1;
      LastIndexFinds(groupBy[..n], c);
      assert groupBy == groupBy[..n] + [groupBy[n]];
    }
  }

  /** Plain columns beside aggregates are grouping columns; without aggregates there is no grouping. */
  ghost predicate Groupable(select: seq<Item>, groupBy: seq<Place>) {
    && (HasAgg(select) ==> forall i :: 0 <= i < |select| && select[i].ItemCol? ==> select[i].c in groupBy)
    && (!HasAgg(select) ==> groupBy == [])
  }

  function OutCell(select: seq<Item>, groupBy: seq<Place>, key: seq<Cell>, accs: seq<A.Acc>, i: nat): Val
    requires i < |select|
  {
    match select[i]
    case ItemCol(c) =>
      (match LastIndex(groupBy, c)
       case Some(g) => if g < |key| then ValOf(key[g]) else VI(0)
       case None => VI(0))
    case ItemAgg(f, _) => if AggIndex(select, i) < |accs| then AccResult(accs[AggIndex(select, i)], f) else VI(0)
    case ItemStar(f) => if AggIndex(select, i) < |accs| then AccResult(accs[AggIndex(select, i)], f) else VI(0)
  }

  /** The output row of one group. */
  function OutRow(select: seq<Item>, groupBy: seq<Place>, key: seq<Cell>, accs: seq<A.Acc>): (r: seq<Val>)
    ensures |r| == |select| && forall i :: 0 <= i < |r| ==> r[i] == OutCell(select, groupBy, key, accs, i)
  {
    seq(|select|, i requires 0 <= i < |select| => OutCell(select, groupBy, key, accs, i))
  }

  /** `keys` is one order in which a hash map may hand out its keys. */
  ghost predicate Enumerates(keys: seq<seq<Cell>>, g: A.Groups) {
    && (forall k :: k in keys <==> k in g)
    && forall i, j :: 0 <= i < j < |keys| ==> keys[i] != keys[j]
  }

  ghost predicate OutputsGroups(select: seq<Item>, groupBy: seq<Place>, g: A.Groups, keys: seq<seq<Cell>>, rows: seq<seq<Val>>) {
    && Enumerates(keys, g) && |rows| == |keys|
    && forall i :: 0 <= i < |rows| ==> keys[i] in g && rows[i] == OutRow(select, groupBy, keys[i], g[keys[i]])
  }

  /** What the engine hands to TopN for the joined rows it consumed. */
  ghost predicate Outputs(select: seq<Item>, groupBy: seq<Place>, js: seq<JoinedRow>, rows: seq<seq<Val>>) {
    if HasAgg(select) then
      exists keys :: OutputsGroups(select, groupBy, A.Fold(RowItems(select, groupBy, js)), keys, rows)
    else
      multiset(rows) == multiset(PlainRows(select, js))
  }

  // ---- the order in which rows are consumed does not matter ----

  lemma ItemsOf(select: seq<Item>, groupBy: seq<Place>, js: seq<JoinedRow>)
    ensures A.Items(RowItems(select, groupBy, js), |Aggs(select)|)
    ensures RowItems(select, groupBy, js) == Map((j: JoinedRow) => RowItem(select, groupBy, j), js)
  {
    hide Aggs, KeyOf, Input;
  }

  lemma OutputsPermute(select: seq<Item>, groupBy: seq<Place>, js: seq<JoinedRow>, js': seq<JoinedRow>, rows: seq<seq<Val>>)
    requires multiset(js) == multiset(js') && Outputs(select, groupBy, js, rows)
    ensures Outputs(select, groupBy, js', rows)
  {
    hide OutputsGroups, RowItems, RowItem, Map, PlainRow, A.Fold;
    if HasAgg(select) {
      ItemsOf(select, groupBy, js);
      ItemsOf(select, groupBy, js');
      MapPermutes((j: JoinedRow) => RowItem(select, groupBy, j), js, js');
      A.FoldPermutes(RowItems(select, groupBy, js), RowItems(select, groupBy, js'), |Aggs(select)|);
    } else {
      MapPermutes((j: JoinedRow) => PlainRow(select, j), js, js');
    }
  }

  // ---- the engine's output is the query's ----

  lemma {:induction false} MinMaxOf(vals: seq<i64>)
    ensures Zone(vals, MinOf(vals), MaxOf(vals))
  {
    if vals != [] {
      var n := |vals| - 1;
      MinMaxOf(vals[..n]);
      A.OneZone(vals[n]);
      ZoneConcat(vals[..n], [vals[n]], MinOf(vals[..n]), MaxOf(vals[..n]), vals[n], vals[n]);
      assert vals == vals[..n] + [vals[n]];
    }
  }

  lemma ZoneUnique(vals: seq<i64>, min: i64, max: i64, min': i64, max': i64)
    requires Zone(vals, min, max) && Zone(vals, min', max')
    ensures min == min' && max == max'
  {
  }

  lemma ResultIsAggValue(a: A.Acc, f: AggFn, inputs: seq<Option<i64>>)
    requires A.Describes(a, inputs)
    ensures AccResult(a, f) == AggValue(f, inputs)
  {
    hide Zone, Wrap64, A.SumOf, A.Values;
    MinMaxOf(A.Values(inputs));
    ZoneUnique(A.Values(inputs), a.min, a.max, MinOf(A.Values(inputs)), MaxOf(A.Values(inputs)));
  }

  /** The inputs of aggregate `ai` for a key are the inputs of the rows of the key's group. */
  lemma {:induction false} GroupInputs(select: seq<Item>, groupBy: seq<Place>, js: seq<JoinedRow>, k: seq<Cell>, ai: nat)
    requires ai < |Aggs(select)|
    ensures A.Inputs(RowItems(select, groupBy, js), k, ai) == InputsOf(Aggs(select)[ai], Group(groupBy, js, k))
    decreases |js|
  {
    hide Aggs, Input, KeyOf;
    if js != [] {
      var n := |js| - 1;
      GroupInputs(select, groupBy, js[..n], k, ai);
      assert RowItems(select, groupBy, js)[..n] == RowItems(select, groupBy, js[..n]);
      var g := Group(groupBy, js[..n], k);
      assert (g + [js[n]])[..|g|] == g;
    }
  }

  lemma {:induction false} GroupOccurs(select: seq<Item>, groupBy: seq<Place>, js: seq<JoinedRow>, k: seq<Cell>)
    ensures A.Occurs(RowItems(select, groupBy, js), k) <==> Group(groupBy, js, k) != []
    ensures Group(groupBy, js, k) != [] ==> KeyOf(groupBy, Group(groupBy, js, k)[0]) == k
    decreases |js|
  {
    hide Aggs, Input, KeyOf;
    if js != [] {
      var n := |js| - 1;
      GroupOccurs(select, groupBy, js[..n], k);
      var xs := RowItems(select, groupBy, js);
      assert xs == RowItems(select, groupBy, js[..n]) + [xs[n]];
      A.OccursSnoc(RowItems(select, groupBy, js[..n]), xs[n], k);
    }
  }

  lemma OutRowIsGroupRow(select: seq<Item>, groupBy: seq<Place>, js: seq<JoinedRow>, k: seq<Cell>)
    requires Groupable(select, groupBy) && HasAgg(select) && Group(groupBy, js, k) != []
    ensures var g := A.Fold(RowItems(select, groupBy, js));
            k in g && OutRow(select, groupBy, k, g[k]) == GroupRow(select, Group(groupBy, js, k))
  {
    hide A.Fold, RowItems, Aggs, AggIndex, Group, InputsOf, AccResult, AggValue, A.Describes, A.Inputs, A.Occurs, LastIndex;
    var items, n, rows := RowItems(select, groupBy, js), |Aggs(select)|, Group(groupBy, js, k);
    ItemsOf(select, groupBy, js);
    A.FoldMeaning(items, n, k);
    GroupOccurs(select, groupBy, js, k);
    var accs := A.Fold(items)[k];
    forall i | 0 <= i < |select| ensures OutRow(select, groupBy, k, accs)[i] == GroupRow(select, rows)[i] {
      if select[i].ItemCol? {
        LastIndexFinds(groupBy, select[i].c);
      } else {
        AggAt(select, i);
        GroupInputs(select, groupBy, js, k, AggIndex(select, i));
        ResultIsAggValue(accs[AggIndex(select, i)], select[i].f, InputsOf(select[i], rows));
      }
    }
  }

  /** Partial aggregation, merging and output compute SELECT and GROUP BY. */
  lemma OutputIsMeant(select: seq<Item>, groupBy: seq<Place>, js: seq<JoinedRow>, rows: seq<seq<Val>>)
    requires Groupable(select, groupBy) && Outputs(select, groupBy, js, rows)
    ensures IsOutput(select, groupBy, js, rows)
  {
    hide A.Fold, RowItems, Group, OutRow, GroupRow, Groupable, A.Occurs;
    if HasAgg(select) {
      var items, n := RowItems(select, groupBy, js), |Aggs(select)|;
      var g := A.Fold(items);
      var keys :| OutputsGroups(select, groupBy, g, keys, rows);
      ItemsOf(select, groupBy, js);
      forall k ensures k in g <==> Group(groupBy, js, k) != [] {
        A.FoldMeaning(items, n, k);
        GroupOccurs(select, groupBy, js, k);
      }
      forall i | 0 <= i < |keys| ensures rows[i] == GroupRow(select, Group(groupBy, js, keys[i])) {
        OutRowIsGroupRow(select, groupBy, js, keys[i]);
      }
      assert ListsKeys(keys, groupBy, js);
      assert rows == GroupRows(select, groupBy, js, keys);
    }
  }
}
