/** Two-phase aggregation by threads. */
module EngineTasks {
  /* Each thread folds its tasks into a partial result, and the results are merged. */

  import opened Wrappers
  import opened Bytes
  import opened LateScan
  import opened Rows
  import opened Permutations
  import opened Plan
  import opened Semantics
  import opened Engine
  import A = Aggregate
  import Ramp

  /** The partial result of a thread that has consumed the rows `js`. */
  ghost predicate IsPartial(select: seq<Item>, groupBy: seq<Place>, js: seq<JoinedRow>, groups: A.Groups, rows: seq<seq<Val>>) {
    if HasAgg(select) then groups == A.Fold(RowItems(select, groupBy, js)) && rows == []
    else groups == map[] && rows == PlainRows(select, js)
  }

  lemma NoRows(select: seq<Item>, groupBy: seq<Place>)
    ensures IsPartial(select, groupBy, [], map[], [])
  {
  }

  lemma RowItemsConcat(select: seq<Item>, groupBy: seq<Place>, a: seq<JoinedRow>, b: seq<JoinedRow>)
    ensures RowItems(select, groupBy, a + b) == RowItems(select, groupBy, a) + RowItems(select, groupBy, b)
  {
    hide RowItem;
  }

  lemma PartialNext(select: seq<Item>, groupBy: seq<Place>, js: seq<JoinedRow>, j: JoinedRow, groups: A.Groups, rows: seq<seq<Val>>)
    requires IsPartial(select, groupBy, js, groups, rows)
    ensures HasAgg(select) ==> IsPartial(select, groupBy, js + [j], A.Consume(groups, RowItem(select, groupBy, j)), rows)
    ensures !HasAgg(select) ==> IsPartial(select, groupBy, js + [j], groups, rows + [PlainRow(select, j)])
  {
    hide RowItem, PlainRow, A.Consume;
    if HasAgg(select) {
      RowItemsConcat(select, groupBy, js, [j]);
      var xs, x := RowItems(select, groupBy, js), RowItem(select, groupBy, j);
      assert RowItems(select, groupBy, [j]) == [x];
      assert (xs + [x])[..|xs|] == xs;
    } else {
      assert (js + [j])[..|js|] == js;
    }
  }

  class Partial {
    var groups: A.Groups
    var rows: seq<seq<Val>>

    constructor ()
      ensures groups == map[] && rows == []
    {
      groups, rows := map[], [];
    }

    /** `consume_row`. */
    method ConsumeRow(select: seq<Item>, groupBy: seq<Place>, j: JoinedRow, ghost js: seq<JoinedRow>)
      requires IsPartial(select, groupBy, js, groups, rows)
      modifies this
      ensures IsPartial(select, groupBy, js + [j], groups, rows)
    {
      hide IsPartial, RowItem, PlainRow, A.Steps, Aggs;
      PartialNext(select, groupBy, js, j, groups, rows);
      if HasAgg(select) {
        var key := KeyOf(groupBy, j);
        var aggs := Aggs(select);
        var accs := if key in groups then groups[key] else A.News(|aggs|);
        accs := AddRow(accs, aggs, j);
        RowItemIs(select, groupBy, j);
        groups := groups[key := accs];
      } else {
        rows := rows + [PlainRow(select, j)];
      }
    }
  }

  lemma RowItemIs(select: seq<Item>, groupBy: seq<Place>, j: JoinedRow)
    ensures RowItem(select, groupBy, j).key == KeyOf(groupBy, j)
    ensures RowItem(select, groupBy, j).inputs == RowInputs(Aggs(select), j)
  {
  }

  function RowInputs(aggs: seq<Item>, j: JoinedRow): (inputs: seq<Option<i64>>)
    ensures |inputs| == |aggs| && forall i :: 0 <= i < |aggs| ==> inputs[i] == Input(aggs[i], j)
  {
    seq(|aggs|, i requires 0 <= i < |aggs| => Input(aggs[i], j))
  }

  /** Each aggregate of a group takes its input from the row. */
  method AddRow(accs: seq<A.Acc>, aggs: seq<Item>, j: JoinedRow) returns (r: seq<A.Acc>)
    ensures r == A.Steps(accs, RowInputs(aggs, j))
  {
    hide A.Step, Input;
    r := accs;
    for i := 0 to |aggs|
      invariant |r| == |accs|
      invariant forall k :: 0 <= k < |r| ==> r[k] == if k < i then A.Step(accs[k], Input(aggs[k], j)) else accs[k]
    {
      if i < |r| {
        r := r[i := A.Step(r[i], Input(aggs[i], j))];
      }
    }
    assert r == A.Steps(accs, RowInputs(aggs, j));
  }

  // ---- the rows of a run ----

  function TaskRows(tasks: seq<seq<JoinedRow>>, t: nat): seq<JoinedRow> {
    if t < |tasks| then tasks[t] else []
  }

  /** The rows a thread consumes for the tasks it takes. */
  function RunRows(tasks: seq<seq<JoinedRow>>, run: seq<nat>): seq<JoinedRow> {
    Flatten(Map((t: nat) => TaskRows(tasks, t), run))
  }

  lemma RunRowsConcat(tasks: seq<seq<JoinedRow>>, a: seq<nat>, b: seq<nat>)
    ensures RunRows(tasks, a + b) == RunRows(tasks, a) + RunRows(tasks, b)
  {
    hide Flatten, Map;
    var f := (t: nat) => TaskRows(tasks, t);
    MapConcat(f, a, b);
    FlattenConcat(Map(f, a), Map(f, b));
  }

  /** Whatever schedule the tasks ran in, their rows are the rows of all tasks. */
  lemma ScheduledRows(tasks: seq<seq<JoinedRow>>, runs: seq<seq<nat>>)
    requires Ramp.Schedule(|tasks|, runs)
    ensures multiset(RunRows(tasks, Flatten(runs))) == multiset(Flatten(tasks))
  {
    hide Flatten, Map;
    var f := (t: nat) => TaskRows(tasks, t);
    MapPermutes(f, Flatten(runs), Range(|tasks|));
    FlattenPermutes(Map(f, Flatten(runs)), Map(f, Range(|tasks|)));
    assert Map(f, Range(|tasks|)) == tasks;
  }

  lemma RunRowsOne(tasks: seq<seq<JoinedRow>>, t: nat)
    ensures RunRows(tasks, [t]) == TaskRows(tasks, t) && RunRows(tasks, []) == []
  {
    hide TaskRows;
    var f := (t: nat) => TaskRows(tasks, t);
    assert [t][..0] == [];
    assert Map(f, [t]) == [f(t)];
    FlattenOne(f(t));
  }

  method ConsumeRows(part: Partial, select: seq<Item>, groupBy: seq<Place>, more: seq<JoinedRow>, ghost js: seq<JoinedRow>)
    requires IsPartial(select, groupBy, js, part.groups, part.rows)
    modifies part
    ensures IsPartial(select, groupBy, js + more, part.groups, part.rows)
  {
    hide IsPartial;
    assert js + [] == js;
    for i := 0 to |more|
      invariant IsPartial(select, groupBy, js + more[..i], part.groups, part.rows)
    {
      part.ConsumeRow(select, groupBy, more[i], js + more[..i]);
      assert js + more[..i] + [more[i]] == js + more[..i + 1];
    }
    assert more[..|more|] == more;
  }

  /** One thread: a fresh partial result, fed with the rows of its tasks. */
  method RunThread(select: seq<Item>, groupBy: seq<Place>, tasks: seq<seq<JoinedRow>>, run: seq<nat>) returns (part: Partial)
    ensures fresh(part) && IsPartial(select, groupBy, RunRows(tasks, run), part.groups, part.rows)
  {
    hide IsPartial, RunRows, TaskRows;
    part := new Partial();
    NoRows(select, groupBy);
    RunRowsOne(tasks, 0);
    assert run[..0] == [];
    for i := 0 to |run|
      invariant fresh(part) && IsPartial(select, groupBy, RunRows(tasks, run[..i]), part.groups, part.rows)
    {
      ConsumeRows(part, select, groupBy, TaskRows(tasks, run[i]), RunRows(tasks, run[..i]));
      RunRowsConcat(tasks, run[..i], [run[i]]);
      RunRowsOne(tasks, run[i]);
      assert run[..i + 1] == run[..i] + [run[i]];
    }
    assert run[..|run|] == run;
  }

  lemma MergeOne(groups: A.Groups, other: A.Groups, todo: set<seq<Cell>>, k: seq<Cell>)
    requires todo <= other.Keys && k in todo
    ensures var r := A.MergeGroups(groups, other - todo);
            A.MergeGroups(groups, other - (todo - {k})) == r[k := if k in r then A.Merges(r[k], other[k]) else other[k]]
  {
    hide A.Merges;
  }

  /** Merging the groups of one partial result, key by key, in any order of the keys. */
  method MergeInto(groups: A.Groups, other: A.Groups) returns (r: A.Groups)
    ensures r == A.MergeGroups(groups, other)
  {
    hide A.Merges;
    r := groups;
    var todo := other.Keys;
    assert A.MergeGroups(groups, other - todo) == groups;
    while todo != {}
      invariant todo <= other.Keys && r == A.MergeGroups(groups, other - todo)
      decreases |todo|
    {
      var k :| k in todo;
      MergeOne(groups, other, todo, k);
      r := r[k := if k in r then A.Merges(r[k], other[k]) else other[k]];
      todo := todo - {k};
    }
    assert other - {} == other;
  }

  lemma PartialsMerge(select: seq<Item>, groupBy: seq<Place>, a: seq<JoinedRow>, b: seq<JoinedRow>,
                      g: A.Groups, h: A.Groups, rows: seq<seq<Val>>, rows': seq<seq<Val>>)
    requires IsPartial(select, groupBy, a, g, rows) && IsPartial(select, groupBy, b, h, rows')
    ensures IsPartial(select, groupBy, a + b, A.MergeGroups(g, h), rows + rows')
  {
    hide RowItems, RowItem, PlainRow, A.Fold, A.MergeGroups, Map;
    if HasAgg(select) {
      RowItemsConcat(select, groupBy, a, b);
      ItemsOf(select, groupBy, a);
      ItemsOf(select, groupBy, b);
      A.FoldConcat(RowItems(select, groupBy, a), RowItems(select, groupBy, b), |Aggs(select)|);
    } else {
      MapConcat((j: JoinedRow) => PlainRow(select, j), a, b);
      NothingMerged();
    }
  }

  lemma NothingMerged()
    ensures A.MergeGroups(map[], map[]) == map[]
  {
  }

  /** FinalAggregate: the partial results of all threads, merged. */
  method RunAll(select: seq<Item>, groupBy: seq<Place>, tasks: seq<seq<JoinedRow>>, runs: seq<seq<nat>>)
    returns (groups: A.Groups, rows: seq<seq<Val>>)
    ensures IsPartial(select, groupBy, RunRows(tasks, Flatten(runs)), groups, rows)
  {
    hide IsPartial, RunRows, Flatten;
    groups, rows := map[], [];
    NoRows(select, groupBy);
    RunRowsOne(tasks, 0);
    NoRuns(runs);
    for w := 0 to |runs|
      invariant IsPartial(select, groupBy, RunRows(tasks, Flatten(runs[..w])), groups, rows)
    {
      var part := RunThread(select, groupBy, tasks, runs[w]);
      ghost var before := RunRows(tasks, Flatten(runs[..w]));
      PartialsMerge(select, groupBy, before, RunRows(tasks, runs[w]), groups, part.groups, rows, part.rows);
      groups := MergeInto(groups, part.groups);
      rows := rows + part.rows;
      FlattenConcat(runs[..w], [runs[w]]);
      FlattenOne(runs[w]);
      RunRowsConcat(tasks, Flatten(runs[..w]), runs[w]);
      assert runs[..w + 1] == runs[..w] + [runs[w]];
    }
    assert runs[..|runs|] == runs;
  }

  lemma NoRuns(runs: seq<seq<nat>>)
    ensures Flatten(runs[..0]) == []
  {
  }

  /** The output rows of all groups, in any order of the keys. */
  method OutputGroups(select: seq<Item>, groupBy: seq<Place>, groups: A.Groups) returns (rows: seq<seq<Val>>, ghost keys: seq<seq<Cell>>)
    ensures OutputsGroups(select, groupBy, groups, keys, rows)
  {
    hide OutRow;
    rows, keys := [], [];
    var todo := groups.Keys;
    while todo != {}
      invariant todo <= groups.Keys && |rows| == |keys|
      invariant forall k :: k in keys <==> k in groups && k !in todo
      invariant forall i, j :: 0 <= i < j < |keys| ==> keys[i] != keys[j]
      invariant forall i :: 0 <= i < |rows| ==> keys[i] in groups && rows[i] == OutRow(select, groupBy, keys[i], groups[keys[i]])
      decreases |todo|
    {
      var k :| k in todo;
      rows := rows + [OutRow(select, groupBy, k, groups[k])];
      ghost var was := keys;
      keys := keys + [k];
      todo := todo - {k};
      assert forall i :: 0 <= i < |was| ==> was[i] in was;
    }
  }

  /** Two-phase aggregation does not depend on the schedule: for any hand-out of the tasks to any number of
      threads, the rows are an output for the rows of all tasks. */
  method ExecuteTasks(select: seq<Item>, groupBy: seq<Place>, tasks: seq<seq<JoinedRow>>, runs: seq<seq<nat>>)
    returns (rows: seq<seq<Val>>)
    requires Ramp.Schedule(|tasks|, runs)
    ensures Outputs(select, groupBy, Flatten(tasks), rows)
  {
    hide OutputsGroups, Flatten, RunRows, A.Fold, RowItems, PlainRows, Ramp.Schedule;
    var groups;
    groups, rows := RunAll(select, groupBy, tasks, runs);
    ghost var js := RunRows(tasks, Flatten(runs));
    if HasAgg(select) {
      ghost var keys;
      var more;
      more, keys := OutputGroups(select, groupBy, groups);
      rows := rows + more;
      assert rows == more;
    }
    assert Outputs(select, groupBy, js, rows);
    ScheduledRows(tasks, runs);
    OutputsPermute(select, groupBy, js, Flatten(tasks), rows);
  }
}
