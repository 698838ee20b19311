/** Pruned columns, pushed predicates. */
module EngineQuery {
  /* What a scan carries is enough: outputs and joins are those of the full rows. */

  import opened Wrappers
  import opened Bytes
  import opened BlitzFooter
  import opened BlitzReader
  import opened LateScan
  import opened Rows
  import opened Permutations
  import opened Plan
  import opened Planner
  import opened Semantics
  import opened Engine
  import opened EngineTasks
  import A = Aggregate
  import J = Joins

  // ---- the plan's rows: per scan, the projected columns ----

  function SelectOf(output: seq<OutExpr>): (select: seq<Item>)
    ensures |select| == |output|
    ensures forall i :: 0 <= i < |select| ==> select[i] == ItemOf(output[i])
  {
    seq(|output|, i requires 0 <= i < |output| => ItemOf(output[i]))
  }

  function ItemOf(o: OutExpr): Item {
    match o
    case OutCol(s, p) => ItemCol(Place(s, p))
    case OutAgg(f, s, p) => ItemAgg(f, Place(s, p))
    case OutStar(f) => ItemStar(f)
  }

  function GroupOf(groupBy: seq<(nat, nat)>): (places: seq<Place>)
    ensures |places| == |groupBy|
    ensures forall i :: 0 <= i < |places| ==> places[i] == Place(groupBy[i].0, groupBy[i].1)
  {
    seq(|groupBy|, i requires 0 <= i < |groupBy| => Place(groupBy[i].0, groupBy[i].1))
  }

  function ProjectJoined(scans: seq<ScanNode>, j: JoinedRow): (r: JoinedRow)
    ensures |r| == |j|
    ensures forall s :: 0 <= s < |j| && s < |scans| ==> r[s] == Project(j[s], scans[s].cols)
  {
    seq(|j|, s requires 0 <= s < |j| => if s < |scans| then Project(j[s], scans[s].cols) else j[s])
  }

  // ---- projection pruning keeps keys, inputs and outputs ----

  /** The rows have the columns the scans read. */
  ghost predicate Full(scans: seq<ScanNode>, j: JoinedRow) {
    |j| == |scans| && forall s, c :: 0 <= s < |scans| && c in scans[s].cols ==> c < |j[s]|
  }

  lemma CarriedCell(scans: seq<ScanNode>, s: nat, p: nat, c: Place, j: JoinedRow)
    requires Carries(scans, s, p, c) && Full(scans, j)
    ensures CellOf(ProjectJoined(scans, j), Place(s, p)) == CellOf(j, c)
  {
    assert scans[s].cols[p] in scans[s].cols;
  }

  lemma CarriedInput(scans: seq<ScanNode>, o: OutExpr, it: Item, j: JoinedRow)
    requires CarriesItem(scans, o, it) && Full(scans, j)
    ensures ItemOf(o).ItemCol? <==> it.ItemCol?
    ensures Input(ItemOf(o), ProjectJoined(scans, j)) == Input(it, j)
  {
    hide CellOf, Full, ProjectJoined, Carries;
    match o {
      case OutCol(s, p) =>
      case OutAgg(f, s, p) => CarriedCell(scans, s, p, it.c, j);
      case OutStar(f) =>
    }
  }

  /** The aggregates of plan and query correspond. */
  lemma {:induction false} CarriedAggs(scans: seq<ScanNode>, output: seq<OutExpr>, select: seq<Item>, j: JoinedRow)
    requires Selects(scans, output, select) && Full(scans, j)
    ensures var a, b := Aggs(SelectOf(output)), Aggs(select);
            |a| == |b| && forall i :: 0 <= i < |a| ==> Input(a[i], ProjectJoined(scans, j)) == Input(b[i], j)
    decreases |output|
  {
    hide CarriesItem, Full, Input, ProjectJoined, ItemOf;
    if output != [] {
      var n := |output| - 1;
      assert SelectOf(output)[..n] == SelectOf(output[..n]);
      CarriedAggs(scans, output[..n], select[..n], j);
      CarriedInput(scans, output[n], select[n], j);
    }
  }

  lemma CarriedHasAgg(scans: seq<ScanNode>, output: seq<OutExpr>, select: seq<Item>)
    requires Selects(scans, output, select)
    ensures HasAgg(SelectOf(output)) <==> HasAgg(select)
  {
    hide Carries;
    if HasAgg(select) {
      var i :| 0 <= i < |select| && !select[i].ItemCol?;
      assert CarriesItem(scans, output[i], select[i]);
      assert !SelectOf(output)[i].ItemCol?;
    }
    if HasAgg(SelectOf(output)) {
      var i :| 0 <= i < |output| && !SelectOf(output)[i].ItemCol?;
      assert CarriesItem(scans, output[i], select[i]);
      assert !select[i].ItemCol?;
    }
  }

  lemma CarriedKey(scans: seq<ScanNode>, groupBy: seq<(nat, nat)>, places: seq<Place>, j: JoinedRow)
    requires GroupsBy(scans, groupBy, places) && Full(scans, j)
    ensures KeyOf(GroupOf(groupBy), ProjectJoined(scans, j)) == KeyOf(places, j)
  {
    hide Full, ProjectJoined, CellOf;
    forall i | 0 <= i < |places| ensures CellOf(ProjectJoined(scans, j), GroupOf(groupBy)[i]) == CellOf(j, places[i]) {
      CarriedCell(scans, groupBy[i].0, groupBy[i].1, places[i], j);
    }
  }

  lemma CarriedItem(scans: seq<ScanNode>, output: seq<OutExpr>, select: seq<Item>, groupBy: seq<(nat, nat)>, places: seq<Place>, j: JoinedRow)
    requires Selects(scans, output, select) && GroupsBy(scans, groupBy, places) && Full(scans, j)
    ensures RowItem(SelectOf(output), GroupOf(groupBy), ProjectJoined(scans, j)) == RowItem(select, places, j)
  {
    hide Selects, GroupsBy, Full, Aggs, KeyOf, Input, ProjectJoined, SelectOf, GroupOf;
    CarriedKey(scans, groupBy, places, j);
    CarriedAggs(scans, output, select, j);
  }

  lemma CarriedPlain(scans: seq<ScanNode>, output: seq<OutExpr>, select: seq<Item>, j: JoinedRow)
    requires Selects(scans, output, select) && Full(scans, j) && !HasAgg(select)
    ensures PlainRow(SelectOf(output), ProjectJoined(scans, j)) == PlainRow(select, j)
  {
    hide Full, ProjectJoined, CellOf;
    forall i | 0 <= i < |select|
      ensures select[i].ItemCol? && SelectOf(output)[i].ItemCol?
           && CellOf(ProjectJoined(scans, j), SelectOf(output)[i].c) == CellOf(j, select[i].c)
    {
      assert CarriesItem(scans, output[i], select[i]);
      CarriedCell(scans, output[i].s, output[i].p, select[i].c, j);
    }
  }

  // ---- and the position of a column in the group key ----

  /** Two positions carry the same column exactly when they are the same position. */
  lemma CarriesOnce(scans: seq<ScanNode>, s: nat, p: nat, c: Place, s': nat, p': nat, c': Place)
    requires Carries(scans, s, p, c) && Carries(scans, s', p', c') && s < |scans| && GoodScan(scans[s])
    ensures c == c' <==> Place(s, p) == Place(s', p')
  {
  }

  lemma {:induction false} CarriedIndex(scans: seq<ScanNode>, groupBy: seq<(nat, nat)>, places: seq<Place>, s: nat, p: nat, c: Place)
    requires GroupsBy(scans, groupBy, places) && Carries(scans, s, p, c) && s < |scans| && GoodScan(scans[s])
    ensures LastIndex(GroupOf(groupBy), Place(s, p)) == LastIndex(places, c)
    decreases |places|
  {
    hide Carries, GoodScan;
    if places != [] {
      var n := |places| - 1;
      assert GroupOf(groupBy)[..n] == GroupOf(groupBy[..n]);
      CarriedIndex(scans, groupBy[..n], places[..n], s, p, c);
      CarriesOnce(scans, s, p, c, groupBy[n].0, groupBy[n].1, places[n]);
    }
  }

  lemma {:induction false} CarriedAggIndex(scans: seq<ScanNode>, output: seq<OutExpr>, select: seq<Item>, i: nat)
    requires Selects(scans, output, select) && i <= |select|
    ensures AggIndex(SelectOf(output), i) == AggIndex(select, i)
    decreases i
  {
    hide Carries;
    if i > 0 {
      CarriedAggIndex(scans, output, select, i - 1);
      assert CarriesItem(scans, output[i - 1], select[i - 1]);
      AggIndexNext(select, i - 1);
      AggIndexNext(SelectOf(output), i - 1);
    } else {
      assert select[..0] == SelectOf(output)[..0] == [];
    }
  }

  lemma AggIndexNext(select: seq<Item>, i: nat)
    requires i < |select|
    ensures AggIndex(select, i + 1) == AggIndex(select, i) + if select[i].ItemCol? then 0 else 1
  {
    assert select[..i + 1][..i] == select[..i];
  }

  lemma CarriedOutRow(scans: seq<ScanNode>, output: seq<OutExpr>, select: seq<Item>, groupBy: seq<(nat, nat)>, places: seq<Place>,
                      key: seq<Cell>, accs: seq<A.Acc>)
    requires Selects(scans, output, select) && GroupsBy(scans, groupBy, places)
    requires forall s :: 0 <= s < |scans| ==> GoodScan(scans[s])
    ensures OutRow(SelectOf(output), GroupOf(groupBy), key, accs) == OutRow(select, places, key, accs)
  {
    hide AggIndex, LastIndex, AccResult, GroupOf, GroupsBy, GoodScan;
    forall i | 0 <= i < |select|
      ensures OutCell(SelectOf(output), GroupOf(groupBy), key, accs, i) == OutCell(select, places, key, accs, i)
    {
      assert CarriesItem(scans, output[i], select[i]);
      CarriedAggIndex(scans, output, select, i);
      if select[i].ItemCol? {
        CarriedIndex(scans, groupBy, places, output[i].s, output[i].p, select[i].c);
      }
    }
  }

  function ProjectAllJoined(scans: seq<ScanNode>, js: seq<JoinedRow>): (r: seq<JoinedRow>)
    ensures |r| == |js| && forall i :: 0 <= i < |r| ==> r[i] == ProjectJoined(scans, js[i])
  {
    Map((j: JoinedRow) => ProjectJoined(scans, j), js)
  }

  /** What the plan outputs for the projected rows, the query outputs for the full ones. */
  lemma CarriedOutputs(scans: seq<ScanNode>, output: seq<OutExpr>, select: seq<Item>, groupBy: seq<(nat, nat)>, places: seq<Place>,
                       js: seq<JoinedRow>, rows: seq<seq<Val>>)
    requires Selects(scans, output, select) && GroupsBy(scans, groupBy, places)
    requires forall s :: 0 <= s < |scans| ==> GoodScan(scans[s])
    requires forall i :: 0 <= i < |js| ==> Full(scans, js[i])
    requires Outputs(SelectOf(output), GroupOf(groupBy), ProjectAllJoined(scans, js), rows)
    ensures Outputs(select, places, js, rows)
  {
    hide Full, GoodScan, Selects, GroupsBy, SelectOf, GroupOf, ProjectJoined, RowItem, PlainRow, OutRow, A.Fold, HasAgg;
    var js' := ProjectAllJoined(scans, js);
    CarriedHasAgg(scans, output, select);
    if HasAgg(select) {
      forall i | 0 <= i < |js| ensures RowItem(SelectOf(output), GroupOf(groupBy), js'[i]) == RowItem(select, places, js[i]) {
        CarriedItem(scans, output, select, groupBy, places, js[i]);
      }
      assert RowItems(SelectOf(output), GroupOf(groupBy), js') == RowItems(select, places, js);
      var g := A.Fold(RowItems(select, places, js));
      var keys :| OutputsGroups(SelectOf(output), GroupOf(groupBy), g, keys, rows);
      forall i | 0 <= i < |keys| ensures rows[i] == OutRow(select, places, keys[i], g[keys[i]]) {
        CarriedOutRow(scans, output, select, groupBy, places, keys[i], g[keys[i]]);
      }
      assert OutputsGroups(select, places, g, keys, rows);
    } else {
      forall i | 0 <= i < |js| ensures PlainRow(SelectOf(output), js'[i]) == PlainRow(select, js[i]) {
        CarriedPlain(scans, output, select, js[i]);
      }
      assert PlainRows(SelectOf(output), js') == PlainRows(select, js);
    }
  }

  // ---- pushed-down predicates ----

  lemma {:induction false} PredsSplit(preds: seq<QueryPred>, j: JoinedRow)
    requires forall p :: p in preds ==> HasCell(j, p.c)
    ensures (forall p :: p in preds ==> CellHit(CellOf(j, p.c), p.op, p.lit))
       <==> forall s :: 0 <= s < |j| ==> RowKept(j[s], PredsOn(preds, s))
    decreases |preds|
  {
    hide CellHit;
    if preds != [] {
      var n, p := |preds| - 1, preds[|preds| - 1];
      PredsSplit(preds[..n], j);
      assert preds == preds[..n] + [p];
      assert p in preds && HasCell(j, p.c);
      forall s | 0 <= s < |j|
        ensures RowKept(j[s], PredsOn(preds, s)) <==>
          RowKept(j[s], PredsOn(preds[..n], s)) && (p.c.scan == s ==> CellHit(CellOf(j, p.c), p.op, p.lit))
      {
        KeptSnoc(j[s], PredsOn(preds[..n], s), Pred(p.c.col, p.op, p.lit));
      }
    }
  }

  lemma KeptSnoc(row: Row, preds: seq<Pred>, p: Pred)
    ensures RowKept(row, preds + [p]) <==> RowKept(row, preds) && p.col < |row| && CellHit(row[p.col], p.op, p.lit)
  {
    assert p in preds + [p];
  }

  // ---- the join, over full rows ----

  /** A query over two tables, the scans of a plan for it, and where its join keys are. */
  ghost predicate TwoTables(q: Query, scans: seq<ScanNode>, k0: nat, k1: nat, c0: Place, c1: Place) {
    && |scans| == |q.binds| == 2 && Scans(scans, q.binds) && Pushed(scans, q.preds)
    && (q.join == Some((c0, c1)) || q.join == Some((c1, c0)))
    && Carries(scans, 0, k0, c0) && Carries(scans, 1, k1, c1)
    && HasPlace(q.binds, c0) && HasPlace(q.binds, c1) && TypeAt(q.binds, c0) == Int64 && TypeAt(q.binds, c1) == Int64
    && forall p :: p in q.preds ==> HasPlace(q.binds, p.c)
  }

  lemma OnePair(q: Query, scans: seq<ScanNode>, k0: nat, k1: nat, c0: Place, c1: Place, l: Row, r: Row)
    requires TwoTables(q, scans, k0, k1, c0, c1) && RowFits(l, q.binds[0].fields) && RowFits(r, q.binds[1].fields)
    ensures Satisfies(q, [l, r]) <==>
      && RowKept(l, scans[0].preds) && RowKept(r, scans[1].preds)
      && J.Matches(Project(l, scans[0].cols), Project(r, scans[1].cols), k0, k1)
  {
    hide CellHit, RowKept, PredsOn, GoodScan;
    var j := [l, r];
    forall p | p in q.preds ensures HasCell(j, p.c) {
    }
    PredsSplit(q.preds, j);
    assert scans[0].preds == PredsOn(q.preds, 0) && scans[1].preds == PredsOn(q.preds, 1);
    assert (forall s :: 0 <= s < |j| ==> RowKept(j[s], PredsOn(q.preds, s)))
      <==> RowKept(j[0], PredsOn(q.preds, 0)) && RowKept(j[1], PredsOn(q.preds, 1));
    assert CellOf(j, c0) == l[c0.col] && CellOf(j, c1) == r[c1.col];
  }

  function ToRow(x: J.Pair): JoinedRow {
    [x.0, x.1]
  }

  lemma {:induction false} FilterConcat(q: Query, a: seq<JoinedRow>, b: seq<JoinedRow>)
    ensures Filter(q, a + b) == Filter(q, a) + Filter(q, b)
    decreases |b|
  {
    hide Satisfies;
    if b == [] {
      assert a + b == a;
    } else {
      var n := |b| - 1;
      FilterConcat(q, a, b[..n]);
      assert (a + b)[..|a| + n] == a + b[..n];
    }
  }

  lemma BesideSnoc(left: seq<Row>, n: nat, r: Row)
    requires |left| == n + 1
    ensures Map(Beside(r), left) == Map(Beside(r), left[..n]) + [[left[n], r]]
  {
  }

  lemma FilterSnoc(q: Query, js: seq<JoinedRow>, j: JoinedRow)
    ensures Filter(q, js + [j]) == Filter(q, js) + if Satisfies(q, j) then [j] else []
  {
    assert (js + [j])[..|js|] == js;
  }

  lemma ScanSnoc(rows: seq<Row>, n: nat, preds: seq<Pred>, cols: seq<nat>)
    requires |rows| == n + 1
    ensures Scan(rows, preds, cols) == Scan(rows[..n], preds, cols) + if RowKept(rows[n], preds) then [Project(rows[n], cols)] else []
  {
  }

  lemma AddNone<T>(xs: seq<T>)
    ensures xs + [] == xs
  {
  }

  /** One row of the right table against all of the left one. */
  lemma {:induction false} InnerLoop(q: Query, scans: seq<ScanNode>, k0: nat, k1: nat, c0: Place, c1: Place, left: seq<Row>, r: Row)
    requires TwoTables(q, scans, k0, k1, c0, c1) && |scans| == 2
    requires Fits(left, q.binds[0].fields) && RowFits(r, q.binds[1].fields)
    ensures ProjectAllJoined(scans, Filter(q, Map(Beside(r), left)))
         == if RowKept(r, scans[1].preds)
            then Map(ToRow, J.MatchesOf(Scan(left, scans[0].preds, scans[0].cols), Project(r, scans[1].cols), k0, k1)) else []
    decreases |left|
  {
    hide TwoTables, RowFits, Satisfies, RowKept, J.Matches, J.MatchesOf, Project, Map, Filter, Scan, ProjectAllJoined, ProjectJoined;
    if left == [] {
      NoInner(q, scans, r, k0, k1);
    } else {
      var n := |left| - 1;
      var l := left[n];
      InnerLoop(q, scans, k0, k1, c0, c1, left[..n], r);
      OnePair(q, scans, k0, k1, c0, c1, l, r);
      BesideSnoc(left, n, r);
      var js := Map(Beside(r), left[..n]);
      FilterSnoc(q, js, [l, r]);
      PairProjected(scans, l, r);
      ScanSnoc(left, n, scans[0].preds, scans[0].cols);
      var build := Scan(left[..n], scans[0].preds, scans[0].cols);
      MatchesSnoc(build, Project(l, scans[0].cols), Project(r, scans[1].cols), k0, k1);
      ProjectSnoc(scans, Filter(q, js), [l, r]);
      AddNone(Filter(q, js));
      AddNone(build);
      AddNone(Map(ToRow, J.MatchesOf(build, Project(r, scans[1].cols), k0, k1)));
    }
  }

  lemma NoInner(q: Query, scans: seq<ScanNode>, r: Row, k0: nat, k1: nat)
    requires |scans| == 2
    ensures ProjectAllJoined(scans, Filter(q, Map(Beside(r), []))) == []
    ensures Map(ToRow, J.MatchesOf(Scan([], scans[0].preds, scans[0].cols), Project(r, scans[1].cols), k0, k1)) == []
  {
  }

  lemma PairProjected(scans: seq<ScanNode>, l: Row, r: Row)
    requires |scans| == 2
    ensures ProjectJoined(scans, [l, r]) == [Project(l, scans[0].cols), Project(r, scans[1].cols)]
  {
    hide Project;
  }

  lemma MatchesSnoc(build: seq<Row>, b: Row, p: Row, bk: nat, pk: nat)
    ensures Map(ToRow, J.MatchesOf(build + [b], p, bk, pk))
         == Map(ToRow, J.MatchesOf(build, p, bk, pk)) + if J.Matches(b, p, bk, pk) then [[b, p]] else []
  {
    hide J.Matches;
    assert (build + [b])[..|build|] == build;
    var ps := J.MatchesOf(build, p, bk, pk);
    assert (ps + [(b, p)])[..|ps|] == ps;
  }

  lemma ProjectSnoc(scans: seq<ScanNode>, js: seq<JoinedRow>, j: JoinedRow)
    ensures ProjectAllJoined(scans, js + [j]) == ProjectAllJoined(scans, js) + [ProjectJoined(scans, j)]
  {
    hide ProjectJoined;
  }

  lemma ProjectConcat(scans: seq<ScanNode>, a: seq<JoinedRow>, b: seq<JoinedRow>)
    ensures ProjectAllJoined(scans, a + b) == ProjectAllJoined(scans, a) + ProjectAllJoined(scans, b)
  {
    hide ProjectJoined;
  }

  /** Pushing predicates and projections below the join changes nothing. */
  lemma {:induction false} PushedJoin(q: Query, scans: seq<ScanNode>, k0: nat, k1: nat, c0: Place, c1: Place, left: seq<Row>, right: seq<Row>)
    requires TwoTables(q, scans, k0, k1, c0, c1) && |scans| == 2 && Fits(left, q.binds[0].fields) && Fits(right, q.binds[1].fields)
    ensures ProjectAllJoined(scans, Filter(q, Cross(left, right)))
         == Map(ToRow, J.NestedLoop(Scan(left, scans[0].preds, scans[0].cols), Scan(right, scans[1].preds, scans[1].cols), k0, k1))
    decreases |right|
  {
    hide TwoTables, RowFits, Satisfies, RowKept, J.MatchesOf, J.NestedLoop, Project, ProjectAllJoined, Map, Scan, Filter;
    if right == [] {
      NothingJoined(q, scans, left, k0, k1);
    } else {
      var n, r := |right| - 1, right[|right| - 1];
      PushedJoin(q, scans, k0, k1, c0, c1, left, right[..n]);
      InnerLoop(q, scans, k0, k1, c0, c1, left, r);
      FilterConcat(q, Cross(left, right[..n]), Map(Beside(r), left));
      ProjectConcat(scans, Filter(q, Cross(left, right[..n])), Filter(q, Map(Beside(r), left)));
      var build := Scan(left, scans[0].preds, scans[0].cols);
      var probe := Scan(right[..n], scans[1].preds, scans[1].cols);
      ScanSnoc(right, n, scans[1].preds, scans[1].cols);
      LoopSnoc(build, probe, Project(r, scans[1].cols), k0, k1);
      AddNone(probe);
      AddNone(ProjectAllJoined(scans, Filter(q, Cross(left, right[..n]))));
    }
  }

  lemma LoopSnoc(build: seq<Row>, probe: seq<Row>, p: Row, bk: nat, pk: nat)
    ensures Map(ToRow, J.NestedLoop(build, probe + [p], bk, pk))
         == Map(ToRow, J.NestedLoop(build, probe, bk, pk)) + Map(ToRow, J.MatchesOf(build, p, bk, pk))
    ensures J.NestedLoop(build, probe, bk, pk) + [] == J.NestedLoop(build, probe, bk, pk)
  {
    hide J.MatchesOf;
    assert (probe + [p])[..|probe|] == probe;
    MapConcat(ToRow, J.NestedLoop(build, probe, bk, pk), J.MatchesOf(build, p, bk, pk));
  }

  lemma NothingJoined(q: Query, scans: seq<ScanNode>, left: seq<Row>, k0: nat, k1: nat)
    requires |scans| == 2
    ensures ProjectAllJoined(scans, Filter(q, Cross(left, []))) == []
    ensures Map(ToRow, J.NestedLoop(Scan(left, scans[0].preds, scans[0].cols), Scan([], scans[1].preds, scans[1].cols), k0, k1)) == []
  {
  }
}
