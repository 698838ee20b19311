/** What a query returns. */
module EngineTheorem {
  import opened Wrappers
  import opened Bytes
  import opened BlitzFooter
  import opened BlitzReader
  import opened LateScan
  import opened Rows
  import opened Permutations
  import opened Plan
  import opened Resolution
  import opened Storage
  import opened Planner
  import opened Semantics
  import opened Engine
  import opened EngineQuery
  import opened EngineRun
  import J = Joins

  // ---- what name resolution guarantees ----

  ghost predicate Resolved(q: Query, catalog: map<string, TableData>) {
    && (forall p :: p in q.preds ==> HasPlace(q.binds, p.c))
    && (forall it :: it in q.select ==> ItemBound(q.binds, it))
    && (forall c :: c in q.groupBy ==> HasPlace(q.binds, c))
    && (forall b :: b in q.binds ==> b.table in catalog && b.fields == catalog[b.table].fields)
    && match q.join
       case None => |q.binds| == 1
       case Some((l, r)) =>
         && |q.binds| == 2 && HasPlace(q.binds, l) && HasPlace(q.binds, r)
         && TypeAt(q.binds, l) == Int64 && TypeAt(q.binds, r) == Int64
  }

  lemma ResolveResolves(catalog: map<string, TableData>, ast: Ast, q: Query)
    requires Asks(catalog, ast, q)
    ensures Resolved(q, catalog)
  {
    hide Names, GoesBy, HasField;
    PlacesNamed(q.binds);
    forall it | it in q.select ensures ItemBound(q.binds, it) {
      var i :| 0 <= i < |q.select| && q.select[i] == it;
      assert ItemAsked(q.binds, ast.select[i], it);
    }
    forall b | b in q.binds ensures b.table in catalog && b.fields == catalog[b.table].fields {
      var i :| 0 <= i < |q.binds| && q.binds[i] == b;
      assert i > 0 ==> TableAsked(catalog, ast.joins[i - 1].table, ast.joins[i - 1].alias, b);
    }
  }

  lemma PlacesNamed(binds: seq<Binding>)
    ensures forall c, p :: Names(binds, c, p) ==> HasPlace(binds, p)
  {
  }

  // ---- which queries and tables the theorem is about ----

  /** ON relates two different tables, literals have their column's type, plain columns beside aggregates are
      grouping columns, and there is no GROUP BY without aggregates. */
  ghost predicate Meaningful(q: Query) {
    && (q.join.Some? ==> q.join.value.0.scan != q.join.value.1.scan)
    && (forall p :: p in q.preds ==> HasPlace(q.binds, p.c) && Comparable(TypeAt(q.binds, p.c), p.op, p.lit))
    && Groupable(q.select, q.groupBy)
  }

  /** Files store rows that fit their schema and that manifest bounds cover. */
  ghost predicate GoodCatalog(catalog: map<string, TableData>) {
    forall name :: name in catalog ==> GoodTable(catalog[name].files, catalog[name].fields)
  }

  /** The full rows of the query's tables. */
  ghost function DataOf(q: Query, catalog: map<string, TableData>): (tables: seq<seq<Row>>)
    ensures |tables| == |q.binds|
    ensures forall s :: 0 <= s < |tables| && q.binds[s].table in catalog ==> tables[s] == TableRowsOf(catalog[q.binds[s].table].files)
  {
    seq(|q.binds|, s requires 0 <= s < |q.binds| =>
      if q.binds[s].table in catalog then TableRowsOf(catalog[q.binds[s].table].files) else [])
  }

  lemma {:induction false} TableFits(files: seq<DataFile>, fields: seq<FieldDef>)
    requires GoodTable(files, fields)
    ensures Fits(TableRowsOf(files), fields)
  {
    hide FileRows, RowFits, Covered, TableRowsOf, Stored;
    if files == [] {
      NoFiles();
    } else {
      var n := |files| - 1;
      TableFits(files[..n], fields);
      assert files == files[..n] + [files[n]];
      TableSnoc(files[..n], files[n]);
      assert GoodFile(files[n], fields);
    }
  }

  // ---- one scan of the plan ----

  /** A scan, its table in the query, and the table's rows. */
  ghost predicate ScansTable(scan: ScanNode, fields: seq<FieldDef>, rows: seq<Row>) {
    && scan.bind.fields == fields && GoodScan(scan) && ScanReady(scan) && Fits(rows, fields) && Fits(TableRowsOf(scan.files), fields)
    && ScanAll(scan) == Scan(rows, scan.preds, scan.cols)
  }

  lemma {:induction false} PredsTyped(preds: seq<QueryPred>, binds: seq<Binding>, s: nat)
    requires s < |binds| && forall p :: p in preds ==> HasPlace(binds, p.c) && Comparable(TypeAt(binds, p.c), p.op, p.lit)
    ensures WellTyped(PredsOn(preds, s), binds[s].fields)
    decreases |preds|
  {
    hide Comparable;
    if preds != [] {
      var n := |preds| - 1;
      PredsTyped(preds[..n], binds, s);
      assert preds[n] in preds;
    }
  }

  lemma {:induction false} RetainGood(files: seq<DataFile>, fields: seq<FieldDef>, preds: seq<Pred>)
    requires GoodTable(files, fields) && Retain(files, fields, preds).Some?
    ensures GoodTable(Retain(files, fields, preds).value, fields)
    decreases |files|
  {
    hide GoodFile, RuledOut;
    if files != [] {
      RetainGood(files[..|files| - 1], fields, preds);
    }
  }

  lemma ReadyToScan(scan: ScanNode, fields: seq<FieldDef>)
    requires scan.bind.fields == fields && GoodScan(scan) && GoodTable(scan.files, fields) && WellTyped(scan.preds, fields)
    ensures ScanReady(scan)
  {
    hide Covered, RowFits, FileRows, WellTyped, Stored;
    forall i | 0 <= i < |scan.files| ensures Stored(scan.files[i], fields) {
      assert GoodFile(scan.files[i], fields);
    }
  }

  lemma PlanScansTable(p: PhysicalPlan, q: Query, catalog: map<string, TableData>, s: nat)
    requires Resolved(q, catalog) && Meaningful(q) && GoodCatalog(catalog) && Implements(p, q, catalog) && s < |q.binds|
    ensures s < |p.scans| && ScansTable(p.scans[s], q.binds[s].fields, DataOf(q, catalog)[s])
  {
    hide Scan, TableRowsOf, Retain, GoodTable, Comparable, Groupable, ItemBound, PredsOn, Joined, Selects, GroupsBy, GoodScan, ScanReady, WellTyped;
    var b := q.binds[s];
    assert b in q.binds;
    var files := catalog[b.table].files;
    TableFits(files, b.fields);
    PredsTyped(q.preds, q.binds, s);
    assert p.scans[s].bind == b && p.scans[s].preds == PredsOn(q.preds, s);
    RetainKeepsScan(files, b.fields, p.scans[s].preds, p.scans[s].cols);
    RetainGood(files, b.fields, p.scans[s].preds);
    ReadyToScan(p.scans[s], b.fields);
    TableFits(p.scans[s].files, b.fields);
  }

  // ---- one table ----

  lemma OneRow(q: Query, scans: seq<ScanNode>, r: Row)
    requires |scans| == |q.binds| == 1 && q.join == None && scans[0].preds == PredsOn(q.preds, 0)
    requires (forall p :: p in q.preds ==> HasPlace(q.binds, p.c)) && RowFits(r, q.binds[0].fields)
    ensures Satisfies(q, Single(r)) <==> RowKept(r, scans[0].preds)
    ensures ProjectJoined(scans, Single(r)) == Single(Project(r, scans[0].cols))
  {
    hide CellHit, RowKept, PredsOn, Project;
    PredsSplit(q.preds, [r]);
    assert [r][0] == r;
  }

  lemma MapSnoc(xs: seq<Row>, x: Row)
    ensures Map(Single, xs + [x]) == Map(Single, xs) + [Single(x)]
  {
  }

  lemma {:induction false} OneTable(q: Query, scans: seq<ScanNode>, rows: seq<Row>)
    requires |scans| == |q.binds| == 1 && q.join == None && scans[0].preds == PredsOn(q.preds, 0)
    requires (forall p :: p in q.preds ==> HasPlace(q.binds, p.c)) && Fits(rows, q.binds[0].fields)
    ensures ProjectAllJoined(scans, Filter(q, Map(Single, rows))) == Map(Single, Scan(rows, scans[0].preds, scans[0].cols))
    decreases |rows|
  {
    hide CellHit, RowKept, RowFits, PredsOn, Project, ProjectJoined, ProjectAllJoined, Satisfies, Map, Filter, Scan, Single, HasPlace;
    if rows == [] {
      NoRowsAtAll(q, scans);
    } else {
      var n, r := |rows| - 1, rows[|rows| - 1];
      OneTable(q, scans, rows[..n]);
      OneRow(q, scans, r);
      assert rows == rows[..n] + [r];
      var js := Map(Single, rows[..n]);
      MapSnoc(rows[..n], r);
      FilterSnoc(q, js, Single(r));
      ProjectSnoc(scans, Filter(q, js), Single(r));
      ScanSnoc(rows, n, scans[0].preds, scans[0].cols);
      var kept := Scan(rows[..n], scans[0].preds, scans[0].cols);
      MapSnoc(kept, Project(r, scans[0].cols));
      AddNone(Filter(q, js));
      AddNone(kept);
    }
  }

  lemma NoRowsAtAll(q: Query, scans: seq<ScanNode>)
    requires |scans| == 1
    ensures ProjectAllJoined(scans, Filter(q, Map(Single, []))) == [] == Map(Single, Scan([], scans[0].preds, scans[0].cols))
  {
  }

  lemma TableOfOne(q: Query, p: PhysicalPlan, tables: seq<seq<Row>>)
    requires |tables| == |p.scans| == |q.binds| == 1 && q.join == None && p.join == None
    requires Pushed(p.scans, q.preds) && (forall x :: x in q.preds ==> HasPlace(q.binds, x.c))
    requires ScansTable(p.scans[0], q.binds[0].fields, tables[0])
    ensures Executable(p) && PlanRows(p) == ProjectAllJoined(p.scans, NaiveJoin(q, tables))
  {
    hide ScanAll, GoodScan, ScanReady, Fits, Map, Scan, Filter, PredsOn, HasPlace, ProjectAllJoined;
    assert p.scans[0].preds == PredsOn(q.preds, 0);
    OneTable(q, p.scans, tables[0]);
  }

  // ---- two tables ----

  /** The scanned keys of a join are Int64 cells. */
  lemma {:induction false} ScannedKeyed(rows: seq<Row>, scan: ScanNode, key: nat)
    requires Fits(rows, scan.bind.fields) && GoodScan(scan)
    requires key < |scan.cols| && scan.bind.fields[scan.cols[key]].dtype == Int64
    ensures J.AllKeyed(Scan(rows, scan.preds, scan.cols), key)
  {
    hide RowKept;
    if rows != [] {
      ScannedKeyed(rows[..|rows| - 1], scan, key);
      assert RowFits(rows[|rows| - 1], scan.bind.fields);
    }
  }

  lemma {:induction false} PartsFit(groups: seq<seq<Row>>, fields: seq<FieldDef>)
    ensures Fits(Flatten(groups), fields) <==> forall t :: 0 <= t < |groups| ==> Fits(groups[t], fields)
  {
    hide RowFits;
    if groups != [] {
      var n := |groups| - 1;
      PartsFit(groups[..n], fields);
      FitsConcat(Flatten(groups[..n]), groups[n], fields);
    }
  }

  lemma FitsConcat(a: seq<Row>, b: seq<Row>, fields: seq<FieldDef>)
    ensures Fits(a + b, fields) <==> Fits(a, fields) && Fits(b, fields)
  {
    hide RowFits;
    if Fits(a + b, fields) {
      forall i | 0 <= i < |a| ensures RowFits(a[i], fields) {
        assert (a + b)[i] == a[i];
      }
      forall i | 0 <= i < |b| ensures RowFits(b[i], fields) {
        assert (a + b)[|a| + i] == b[i];
      }
    }
  }

  lemma BatchesAreKeyed(scan: ScanNode, key: nat)
    requires Fits(TableRowsOf(scan.files), scan.bind.fields) && GoodScan(scan)
    requires key < |scan.cols| && scan.bind.fields[scan.cols[key]].dtype == Int64
    ensures J.BatchesKeyed(Batches(scan), key)
  {
    hide Fits, GoodScan, J.AllKeyed, Scan, TableRowsOf, GroupsOf;
    var groups := GroupsOf(scan.files);
    GroupsFlatten(scan.files);
    PartsFit(groups, scan.bind.fields);
    forall t | 0 <= t < |groups| ensures J.AllKeyed(Batches(scan)[t], key) {
      ScannedKeyed(groups[t], scan, key);
    }
  }

  /** The plan's join in the order of the tables, whichever side builds. */
  lemma JoinInOrder(p: PhysicalPlan, j: JoinNode, k0: nat, k1: nat)
    requires |p.scans| == 2 && j.build < 2 && j.probe == 1 - j.build
    requires if j.build == 0 then k0 == j.buildKey && k1 == j.probeKey else k0 == j.probeKey && k1 == j.buildKey
    ensures multiset(Map(ToJoined(j), PlanPairs(p, j)))
         == multiset(Map(ToRow, J.NestedLoop(ScanAll(p.scans[0]), ScanAll(p.scans[1]), k0, k1)))
  {
    hide J.NestedLoop, ScanAll, Map, ToJoined;
    var pairs := PlanPairs(p, j);
    if j.build == 0 {
      LeftBuilds(j, pairs);
    } else {
      RightBuilds(j, pairs);
      J.EitherBuildSide(ScanAll(p.scans[0]), ScanAll(p.scans[1]), k0, k1);
      MapPermutes(ToRow, Map(J.Swap, pairs), J.NestedLoop(ScanAll(p.scans[0]), ScanAll(p.scans[1]), k0, k1));
    }
  }

  lemma LeftBuilds(j: JoinNode, pairs: seq<J.Pair>)
    requires j.build == 0
    ensures Map(ToJoined(j), pairs) == Map(ToRow, pairs)
  {
    var f := ToJoined(j);
    assert forall x: J.Pair :: f(x) == ToRow(x);
  }

  lemma RightBuilds(j: JoinNode, pairs: seq<J.Pair>)
    requires j.build != 0
    ensures Map(ToJoined(j), pairs) == Map(ToRow, Map(J.Swap, pairs))
  {
    var f := ToJoined(j);
    assert forall x: J.Pair :: f(x) == ToRow(J.Swap(x));
  }

  lemma KeyColumn(scans: seq<ScanNode>, binds: seq<Binding>, s: nat, k: nat, c: Place)
    requires Scans(scans, binds) && Carries(scans, s, k, c) && HasPlace(binds, c) && TypeAt(binds, c) == Int64
    ensures s < |scans| && k < |scans[s].cols| && scans[s].cols[k] < |scans[s].bind.fields|
    ensures scans[s].bind.fields[scans[s].cols[k]].dtype == Int64
  {
  }

  lemma SideKeyed(scan: ScanNode, fields: seq<FieldDef>, rows: seq<Row>, key: nat)
    requires ScansTable(scan, fields, rows)
    requires key < |scan.cols| && scan.cols[key] < |scan.bind.fields| && scan.bind.fields[scan.cols[key]].dtype == Int64
    ensures J.BatchesKeyed(Batches(scan), key)
  {
    hide ScanAll, Fits;
    BatchesAreKeyed(scan, key);
  }

  lemma TableOfTwo(q: Query, p: PhysicalPlan, tables: seq<seq<Row>>, k0: nat, k1: nat, c0: Place, c1: Place, j: JoinNode)
    requires |tables| == |p.scans| == 2 && TwoTables(q, p.scans, k0, k1, c0, c1) && p.join == Some(j)
    requires j.build < 2 && j.probe == 1 - j.build && (j.strategy.Shuffle? ==> j.strategy.partitions > 0)
    requires if j.build == 0 then k0 == j.buildKey && k1 == j.probeKey else k0 == j.probeKey && k1 == j.buildKey
    requires |q.binds| == 2
    requires ScansTable(p.scans[0], q.binds[0].fields, tables[0]) && ScansTable(p.scans[1], q.binds[1].fields, tables[1])
    ensures Executable(p) && multiset(PlanRows(p)) == multiset(ProjectAllJoined(p.scans, NaiveJoin(q, tables)))
  {
    hide Map, J.NestedLoop, Scan, Filter, PredsOn, ProjectAllJoined, Cross, J.BatchesKeyed, ToJoined, PlanPairs, Carries, HasPlace, Scans, Pushed, ScanReady;
    KeyColumn(p.scans, q.binds, 0, k0, c0);
    KeyColumn(p.scans, q.binds, 1, k1, c1);
    SideKeyed(p.scans[0], q.binds[0].fields, tables[0], k0);
    SideKeyed(p.scans[1], q.binds[1].fields, tables[1], k1);
    JoinInOrder(p, j, k0, k1);
    ScanFacts(p.scans[0], q.binds[0].fields, tables[0]);
    ScanFacts(p.scans[1], q.binds[1].fields, tables[1]);
    PushedJoin(q, p.scans, k0, k1, c0, c1, tables[0], tables[1]);
  }

  lemma ScanFacts(scan: ScanNode, fields: seq<FieldDef>, rows: seq<Row>)
    requires ScansTable(scan, fields, rows)
    ensures Fits(rows, fields) && ScanAll(scan) == Scan(rows, scan.preds, scan.cols)
  {
  }

  // ---- the joined rows are full rows ----

  lemma {:induction false} FilterMembers(q: Query, js: seq<JoinedRow>)
    ensures forall j :: j in Filter(q, js) ==> j in js
  {
    hide Satisfies;
    if js != [] {
      FilterMembers(q, js[..|js| - 1]);
    }
  }

  lemma {:induction false} CrossMembers(left: seq<Row>, right: seq<Row>)
    ensures forall j :: j in Cross(left, right) ==> |j| == 2 && j[0] in left && j[1] in right
  {
    if right != [] {
      CrossMembers(left, right[..|right| - 1]);
    }
  }

  lemma NaiveMembers(q: Query, tables: seq<seq<Row>>, j: JoinedRow)
    requires j in NaiveJoin(q, tables)
    ensures |j| == |tables| && forall s :: 0 <= s < |tables| ==> j[s] in tables[s]
  {
    hide Filter, Cross, Map;
    FilterMembers(q, Product(tables));
    assert j in Product(tables);
    if |tables| == 1 {
      SingleMembers(tables[0]);
    } else {
      CrossMembers(tables[0], tables[1]);
    }
  }

  lemma NaiveFull(q: Query, p: PhysicalPlan, tables: seq<seq<Row>>, i: nat)
    requires |tables| == |p.scans| == |q.binds| && i < |NaiveJoin(q, tables)|
    requires forall s :: 0 <= s < |p.scans| ==> ScansTable(p.scans[s], q.binds[s].fields, tables[s])
    ensures Full(p.scans, NaiveJoin(q, tables)[i])
  {
    hide NaiveJoin, ScansTable;
    var j := NaiveJoin(q, tables)[i];
    NaiveMembers(q, tables, j);
    forall s, c | 0 <= s < |p.scans| && c in p.scans[s].cols ensures c < |j[s]| {
      WideRow(p.scans[s], q.binds[s].fields, tables[s], j[s], c);
    }
  }

  lemma WideRow(scan: ScanNode, fields: seq<FieldDef>, rows: seq<Row>, row: Row, c: nat)
    requires ScansTable(scan, fields, rows) && row in rows && c in scan.cols
    ensures c < |row|
  {
    hide ScanAll;
    assert RowFits(row, fields);
  }

  lemma SingleMembers(rows: seq<Row>)
    ensures forall j :: j in Map(Single, rows) ==> |j| == 1 && j[0] in rows
  {
  }

  // ---- the theorem ----

  /** The joined rows of a plan for a query are, up to order, the naive joined rows with the columns the scans read. */
  lemma PlanJoins(p: PhysicalPlan, q: Query, catalog: map<string, TableData>)
    requires Resolved(q, catalog) && Meaningful(q) && GoodCatalog(catalog) && Implements(p, q, catalog)
    ensures Executable(p)
    ensures multiset(PlanRows(p)) == multiset(ProjectAllJoined(p.scans, NaiveJoin(q, DataOf(q, catalog))))
    ensures forall s :: 0 <= s < |p.scans| ==> GoodScan(p.scans[s])
    ensures forall i :: 0 <= i < |NaiveJoin(q, DataOf(q, catalog))| ==> Full(p.scans, NaiveJoin(q, DataOf(q, catalog))[i])
  {
    hide ScansTable, GoodScan, FilesRetained, PlanRows, NaiveJoin, ProjectAllJoined, Pushed, Selects, GroupsBy, GoodCatalog, Groupable, Full;
    var tables := DataOf(q, catalog);
    forall s | 0 <= s < |p.scans| ensures ScansTable(p.scans[s], q.binds[s].fields, tables[s]) {
      PlanScansTable(p, q, catalog, s);
    }
    forall i | 0 <= i < |NaiveJoin(q, tables)| ensures Full(p.scans, NaiveJoin(q, tables)[i]) {
      NaiveFull(q, p, tables, i);
    }
    match q.join {
      case None =>
        PushedOne(p.scans, q.preds);
        TableOfOne(q, p, tables);
      case Some((l, r)) =>
        var j := p.join.value;
        TwoSides(p, q, j, l, r);
        var inOrder := Carries(p.scans, j.build, j.buildKey, l) && Carries(p.scans, j.probe, j.probeKey, r);
        var bc, pc := if inOrder then l else r, if inOrder then r else l;
        if j.build == 0 {
          TableOfTwo(q, p, tables, j.buildKey, j.probeKey, bc, pc, j);
        } else {
          TableOfTwo(q, p, tables, j.probeKey, j.buildKey, pc, bc, j);
        }
    }
  }

  lemma PushedOne(scans: seq<ScanNode>, preds: seq<QueryPred>)
    ensures Pushed(scans, preds) && |scans| > 0 ==> scans[0].preds == PredsOn(preds, 0)
  {
  }

  lemma TwoSides(p: PhysicalPlan, q: Query, j: JoinNode, l: Place, r: Place)
    requires |p.scans| == |q.binds| == 2 && q.join == Some((l, r)) && p.join == Some(j) && Joined(p.scans, p.join, q.join)
    requires l.scan != r.scan
    ensures j.build < 2 && j.probe == 1 - j.build
  {
  }

  /** Whatever the build side, the strategy and the timing, what a plan outputs is a result of its query. */
  lemma OutputIsResult(p: PhysicalPlan, q: Query, catalog: map<string, TableData>, rows: seq<seq<Val>>)
    requires Resolved(q, catalog) && Meaningful(q) && GoodCatalog(catalog) && Implements(p, q, catalog)
    requires Executable(p) && Outputs(SelectOf(p.output), GroupOf(p.groupBy), PlanRows(p), rows)
    ensures IsResult(q, DataOf(q, catalog), rows)
  {
    hide GoodScan, Full, Outputs, Resolved, GoodCatalog, IsOutput, NaiveJoin, PlanRows, Executable, SelectOf, GroupOf;
    PlanJoins(p, q, catalog);
    ImpliesCarried(p, q, catalog);
    var js := NaiveJoin(q, DataOf(q, catalog));
    OutputsPermute(SelectOf(p.output), GroupOf(p.groupBy), PlanRows(p), ProjectAllJoined(p.scans, js), rows);
    CarriedOutputs(p.scans, p.output, q.select, p.groupBy, q.groupBy, js, rows);
    OutputIsMeant(q.select, q.groupBy, js, rows);
  }

  lemma ImpliesCarried(p: PhysicalPlan, q: Query, catalog: map<string, TableData>)
    requires Implements(p, q, catalog)
    ensures Selects(p.scans, p.output, q.select) && GroupsBy(p.scans, p.groupBy, q.groupBy)
  {
  }

  /** Plan, then execute: a query that resolves and is meaningful gets a result of its naive meaning, unless a
      manifest bound is too short to be read. */
  method RunQuery(ast: Ast, catalog: map<string, TableData>, leftBuilds: bool, broadcast: bool, timing: PhysicalPlan -> Timing)
    returns (r: Result<seq<seq<Val>>, Error>)
    requires GoodCatalog(catalog)
    requires forall q :: Asks(catalog, ast, q) ==> Meaningful(q)
    requires forall p: PhysicalPlan :: Executable(p) ==> Possible(p, timing(p))
    ensures !Answerable(catalog, ast) ==> r.Err? && Refused(catalog, ast, r.error)
    ensures forall q :: Asks(catalog, ast, q) ==>
      && (r.Ok? ==> IsResult(q, DataOf(q, catalog), r.value))
      && (r.Err? ==> r == Err(ShortBound) && SomeShortBound(catalog, q.binds))
  {
    hide Asks, Refused, IsResult, SomeShortBound, Resolved, GoodCatalog, Implements, Executable, Possible, Outputs, PlanRows, Meaningful;
    var p := MakePlan(ast, catalog, leftBuilds, broadcast);
    if p.Err? {
      return Err(p.error);
    }
    ghost var q :| Asks(catalog, ast, q);
    ResolveResolves(catalog, ast, q);
    PlanJoins(p.value, q, catalog);
    var rows := Execute(p.value, timing(p.value));
    OutputIsResult(p.value, q, catalog, rows);
    OneQuery(catalog, ast, q);
    r := Ok(rows);
  }
}
