/** Executing a physical plan. */
module EngineRun {
  /* Scan, join and aggregate, with either strategy and any timing. */

  import opened Wrappers
  import opened Bytes
  import opened Bounds
  import opened BlitzFooter
  import opened BlitzChunks
  import opened BlitzReader
  import opened LateScan
  import opened Rows
  import opened Permutations
  import opened Plan
  import opened Storage
  import opened Planner
  import opened Semantics
  import opened Engine
  import opened EngineTasks
  import opened EngineQuery
  import J = Joins
  import Ramp

  // ---- tables and their bounds ----

  ghost predicate CellCovered(c: Cell, b: Bound) {
    match c
    case I(v) => DeLong(b.lo).Some? && DeLong(b.hi).Some? && DeLong(b.lo).value <= v <= DeLong(b.hi).value
    case S(t) => !Less(t, b.lo) && !Less(b.hi, t)
  }

  /** A bound listed for a column covers the column's cells in the file. */
  ghost predicate Covered(f: DataFile, fields: seq<FieldDef>) {
    forall c, r :: 0 <= c < |fields| && r in FileRows(f) && c < |r| ==>
      match FindBound(f.bounds, fields[c].id)
      case None => true
      case Some(b) => CellCovered(r[c], b)
  }

  /** The file's bytes store its rows, which fit the schema and lie within the bounds. */
  ghost predicate GoodFile(f: DataFile, fields: seq<FieldDef>) {
    Covered(f, fields) && Stored(f, fields) && forall r :: r in FileRows(f) ==> RowFits(r, fields)
  }

  ghost predicate GoodTable(files: seq<DataFile>, fields: seq<FieldDef>) {
    forall i :: 0 <= i < |files| ==> GoodFile(files[i], fields)
  }

  /** A scan's files are stored as its table's, and its predicates and columns are the table's. */
  ghost predicate ScanReady(scan: ScanNode) {
    && (forall i :: 0 <= i < |scan.files| ==> Stored(scan.files[i], scan.bind.fields))
    && WellTyped(scan.preds, scan.bind.fields)
    && forall j :: 0 <= j < |scan.cols| ==> scan.cols[j] < |scan.bind.fields|
  }

  lemma PruneMisses(f: DataFile, fields: seq<FieldDef>, p: Pred, row: Row)
    requires GoodFile(f, fields) && row in FileRows(f) && RowFits(row, fields)
    requires p.col < |fields| && Comparable(fields[p.col].dtype, p.op, p.lit) && TypeOfId(fields, fields[p.col].id).Some?
    requires FilePrunes(f, fields[p.col].id, TypeOfId(fields, fields[p.col].id).value, p.op, p.lit) == Some(true)
    ensures !CellHit(row[p.col], p.op, p.lit)
  {
    hide FileRows, DeLong, TypeOfId, FindBound, Less, Stored;
    var b := FindBound(f.bounds, fields[p.col].id);
    assert b.Some? && CellCovered(row[p.col], b.value);
  }

  /** A file that some predicate rules out has no row the scan would keep. */
  lemma {:induction false} RuledOutMisses(f: DataFile, fields: seq<FieldDef>, preds: seq<Pred>, row: Row)
    requires GoodFile(f, fields) && row in FileRows(f) && WellTyped(preds, fields) && RuledOut(f, fields, preds) == Some(true)
    ensures !RowKept(row, preds)
    decreases |preds|
  {
    hide FileRows, FilePrunes, Covered, CellHit, Stored;
    var n := |preds| - 1;
    assert preds == preds[..n] + [preds[n]];
    KeptSnoc(row, preds[..n], preds[n]);
    if RuledOut(f, fields, preds[..n]) == Some(true) {
      RuledOutMisses(f, fields, preds[..n], row);
    } else {
      PruneMisses(f, fields, preds[n], row);
    }
  }

  lemma {:induction false} NothingScanned(rows: seq<Row>, preds: seq<Pred>, cols: seq<nat>)
    requires forall r :: r in rows ==> !RowKept(r, preds)
    ensures Scan(rows, preds, cols) == []
  {
    hide RowKept;
    if rows != [] {
      NothingScanned(rows[..|rows| - 1], preds, cols);
    }
  }

  lemma TableSnoc(files: seq<DataFile>, f: DataFile)
    ensures TableRowsOf(files + [f]) == TableRowsOf(files) + FileRows(f)
  {
    hide FileRows;
    assert (files + [f])[..|files|] == files;
    var fs := Map(FileRows, files);
    assert (fs + [FileRows(f)])[..|fs|] == fs;
  }

  /** File pruning loses no row that the scan would keep. */
  lemma {:induction false} RetainKeepsScan(files: seq<DataFile>, fields: seq<FieldDef>, preds: seq<Pred>, cols: seq<nat>)
    requires GoodTable(files, fields) && WellTyped(preds, fields) && Retain(files, fields, preds).Some?
    ensures Scan(TableRowsOf(Retain(files, fields, preds).value), preds, cols) == Scan(TableRowsOf(files), preds, cols)
    decreases |files|
  {
    hide TableRowsOf, RuledOut, Scan, FileRows, WellTyped, Covered, Stored;
    if files != [] {
      var n, f := |files| - 1, files[|files| - 1];
      RetainKeepsScan(files[..n], fields, preds, cols);
      assert files == files[..n] + [f];
      TableSnoc(files[..n], f);
      ScanConcat(TableRowsOf(files[..n]), FileRows(f), preds, cols);
      var kept := Retain(files[..n], fields, preds).value;
      if RuledOut(f, fields, preds).value {
        forall r | r in FileRows(f) ensures !RowKept(r, preds) {
          RuledOutMisses(f, fields, preds, r);
        }
        NothingScanned(FileRows(f), preds, cols);
        AddNone(Scan(TableRowsOf(files[..n]), preds, cols));
      } else {
        TableSnoc(kept, f);
        ScanConcat(TableRowsOf(kept), FileRows(f), preds, cols);
      }
    }
  }

  // ---- tasks: one per row group ----

  function GroupsOf(files: seq<DataFile>): seq<seq<Row>> {
    if files == [] then [] else GroupsOf(files[..|files| - 1]) + files[|files| - 1].groups
  }

  /** What each task of a scan hands on. */
  function Batches(scan: ScanNode): seq<seq<Row>> {
    Map((g: seq<Row>) => Scan(g, scan.preds, scan.cols), GroupsOf(scan.files))
  }

  function ScanAll(scan: ScanNode): seq<Row> {
    Scan(TableRowsOf(scan.files), scan.preds, scan.cols)
  }

  lemma {:induction false} GroupsFlatten(files: seq<DataFile>)
    ensures Flatten(GroupsOf(files)) == TableRowsOf(files)
  {
    hide TableRowsOf;
    if files == [] {
      NoFiles();
    } else {
      var n := |files| - 1;
      GroupsFlatten(files[..n]);
      FlattenConcat(GroupsOf(files[..n]), files[n].groups);
      TableSnoc(files[..n], files[n]);
      assert files == files[..n] + [files[n]];
    }
  }

  lemma NoFiles()
    ensures TableRowsOf([]) == []
  {
  }

  lemma {:induction false} ScanFlatten(groups: seq<seq<Row>>, preds: seq<Pred>, cols: seq<nat>)
    ensures Flatten(Map((g: seq<Row>) => Scan(g, preds, cols), groups)) == Scan(Flatten(groups), preds, cols)
  {
    hide Scan;
    if groups == [] {
      NoScan(preds, cols);
    } else {
      var n := |groups| - 1;
      ScanFlatten(groups[..n], preds, cols);
      ScanConcat(Flatten(groups[..n]), groups[n], preds, cols);
      var f := (g: seq<Row>) => Scan(g, preds, cols);
      var m := Map(f, groups[..n]);
      assert (m + [f(groups[n])])[..|m|] == m;
    }
  }

  lemma NoScan(preds: seq<Pred>, cols: seq<nat>)
    ensures Scan([], preds, cols) == []
  {
  }

  /** The batches of a scan are the rows of the whole scan, in order. */
  lemma BatchesFlatten(scan: ScanNode)
    ensures Flatten(Batches(scan)) == ScanAll(scan)
  {
    hide TableRowsOf, GroupsOf, Scan, Flatten, Map;
    GroupsFlatten(scan.files);
    ScanFlatten(GroupsOf(scan.files), scan.preds, scan.cols);
  }

  lemma NoBatches(scan: ScanNode)
    ensures Map((g: seq<Row>) => Scan(g, scan.preds, scan.cols), GroupsOf([])) == []
  {
  }

  /** The batches of one more file follow those of the files before it. */
  lemma BatchesSnoc(scan: ScanNode, i: nat, more: seq<seq<Row>>)
    requires i < |scan.files| && |more| == |scan.files[i].groups|
    requires forall g :: 0 <= g < |more| ==> more[g] == Scan(scan.files[i].groups[g], scan.preds, scan.cols)
    ensures var f := (g: seq<Row>) => Scan(g, scan.preds, scan.cols);
            Map(f, GroupsOf(scan.files[..i + 1])) == Map(f, GroupsOf(scan.files[..i])) + more
  {
    hide Scan, Map;
    var f := (g: seq<Row>) => Scan(g, scan.preds, scan.cols);
    assert scan.files[..i + 1][..i] == scan.files[..i];
    MapConcat(f, GroupsOf(scan.files[..i]), scan.files[i].groups);
    assert Map(f, scan.files[i].groups) == more;
  }

  /** The tasks of a scan, one per (file, row group): each reads the file's bytes, filters late and hands on rows. */
  method ScanTasks(scan: ScanNode) returns (batches: seq<seq<Row>>)
    requires ScanReady(scan)
    ensures batches == Batches(scan)
  {
    hide Scan, Map, GroupsOf, Stored, WellTyped;
    ghost var f := (g: seq<Row>) => Scan(g, scan.preds, scan.cols);
    batches := [];
    NoBatches(scan);
    for i := 0 to |scan.files|
      invariant batches == Map(f, GroupsOf(scan.files[..i]))
    {
      var more := ScanFile(scan.files[i], scan.preds, scan.cols, scan.bind.fields);
      BatchesSnoc(scan, i, more.value);
      batches := batches + more.value;
    }
    assert scan.files[..|scan.files|] == scan.files;
  }

  /** `scan_all`. */
  method ScanRows(scan: ScanNode) returns (rows: seq<Row>)
    requires ScanReady(scan)
    ensures rows == ScanAll(scan)
  {
    hide Scan, Flatten, GroupsOf, ScanReady;
    var batches := ScanTasks(scan);
    rows := [];
    FlattenNone<Row>();
    for t := 0 to |batches|
      invariant rows == Flatten(batches[..t])
    {
      J.FlattenSnoc(batches[..t], batches[t]);
      assert batches[..t + 1] == batches[..t] + [batches[t]];
      rows := rows + batches[t];
    }
    assert batches[..|batches|] == batches;
    BatchesFlatten(scan);
  }

  lemma FlattenNone<T>()
    ensures Flatten<T>([]) == []
  {
  }

  // ---- the joined rows of a plan ----

  /** Build and probe row at their places in the joined row. */
  function ToJoined(j: JoinNode): J.Pair -> JoinedRow {
    (x: J.Pair) => if j.build == 0 then [x.0, x.1] else [x.1, x.0]
  }

  /** Files are stored, the two sides of a join are the two scans, and their scanned keys are Int64 cells. */
  ghost predicate Executable(p: PhysicalPlan) {
    && (forall s :: 0 <= s < |p.scans| ==> ScanReady(p.scans[s]))
    && match p.join
       case None => |p.scans| == 1
       case Some(j) =>
         && |p.scans| == 2 && j.build < 2 && j.probe == 1 - j.build
         && (j.strategy.Shuffle? ==> j.strategy.partitions > 0)
         && J.BatchesKeyed(Batches(p.scans[j.build]), j.buildKey) && J.BatchesKeyed(Batches(p.scans[j.probe]), j.probeKey)
  }

  function PlanPairs(p: PhysicalPlan, j: JoinNode): seq<J.Pair>
    requires j.build < |p.scans| && j.probe < |p.scans|
  {
    J.NestedLoop(ScanAll(p.scans[j.build]), ScanAll(p.scans[j.probe]), j.buildKey, j.probeKey)
  }

  /** The joined rows a plan stands for. */
  ghost function PlanRows(p: PhysicalPlan): seq<JoinedRow>
    requires Executable(p)
  {
    match p.join
    case None => Map(Single, ScanAll(p.scans[0]))
    case Some(j) => Map(ToJoined(j), PlanPairs(p, j))
  }

  /** The order in which the map tasks of a side reach the lock of each partition. */
  ghost predicate Orders(orders: seq<seq<nat>>, partitions: nat, tasks: nat) {
    |orders| == partitions && forall p :: 0 <= p < partitions ==> multiset(orders[p]) == multiset(Range(tasks))
  }

  /** How the threads came to run a plan's tasks. */
  datatype Timing = Timing(runs: seq<seq<nat>>, buildOrders: seq<seq<nat>>, probeOrders: seq<seq<nat>>)

  ghost predicate Possible(p: PhysicalPlan, t: Timing)
    requires Executable(p)
  {
    match p.join
    case None => Ramp.Schedule(|Batches(p.scans[0])|, t.runs)
    case Some(j) =>
      match j.strategy
      case Broadcast => Ramp.Schedule(|Batches(p.scans[j.probe])|, t.runs)
      case Shuffle(n) =>
        && Ramp.Schedule(n, t.runs)
        && Orders(t.buildOrders, n, |Batches(p.scans[j.build])|) && Orders(t.probeOrders, n, |Batches(p.scans[j.probe])|)
  }

  /** A list built by applying a function to each element of another. */
  method Each<X, Y>(f: X -> Y, xs: seq<X>) returns (ys: seq<Y>)
    ensures ys == Map(f, xs)
  {
    ys := [];
    for i := 0 to |xs|
      invariant ys == Map(f, xs[..i])
    {
      assert xs[..i + 1][..i] == xs[..i];
      ys := ys + [f(xs[i])];
    }
    assert xs[..|xs|] == xs;
  }

  lemma {:induction false} MapFlatten<X, Y>(f: X -> Y, xss: seq<seq<X>>)
    ensures Flatten(Map((xs: seq<X>) => Map(f, xs), xss)) == Map(f, Flatten(xss))
  {
    if xss != [] {
      var n := |xss| - 1;
      MapFlatten(f, xss[..n]);
      MapConcat(f, Flatten(xss[..n]), xss[n]);
      var g := (xs: seq<X>) => Map(f, xs);
      var m := Map(g, xss[..n]);
      assert (m + [g(xss[n])])[..|m|] == m;
    }
  }

  /** The tasks of a scan without a join. */
  method ScanOnly(scan: ScanNode) returns (tasks: seq<seq<JoinedRow>>)
    requires ScanReady(scan)
    ensures |tasks| == |Batches(scan)| && Flatten(tasks) == Map(Single, ScanAll(scan))
  {
    hide Map, Flatten, ScanAll, Batches, ScanReady;
    var batches := ScanTasks(scan);
    tasks := Each((b: seq<Row>) => Map(Single, b), batches);
    MapFlatten(Single, batches);
    BatchesFlatten(scan);
  }

  /** The probe tasks of a broadcast join: each probes the one shared table. */
  method BroadcastJoin(p: PhysicalPlan, j: JoinNode) returns (tasks: seq<seq<JoinedRow>>)
    requires Executable(p) && p.join == Some(j)
    ensures |tasks| == |Batches(p.scans[j.probe])| && Flatten(tasks) == Map(ToJoined(j), PlanPairs(p, j))
  {
    hide Map, Flatten, ScanAll, Batches, J.NestedLoop, ToJoined, ScanReady;
    var build := ScanRows(p.scans[j.build]);
    var batches := ScanTasks(p.scans[j.probe]);
    ghost var f := (batch: seq<Row>) => J.NestedLoop(build, batch, j.buildKey, j.probeKey);
    var pairs: seq<seq<J.Pair>> := [];
    for t := 0 to |batches|
      invariant |pairs| == t && forall i :: 0 <= i < t ==> pairs[i] == f(batches[i])
    {
      assert J.AllKeyed(batches[t], j.probeKey);
      var found := J.HashJoin(build, batches[t], j.buildKey, j.probeKey);
      pairs := pairs + [found];
    }
    assert pairs == J.BroadcastTasks(build, batches, j.buildKey, j.probeKey);
    J.BroadcastIsNestedLoop(build, batches, j.buildKey, j.probeKey);
    BatchesFlatten(p.scans[j.probe]);
    var g := ToJoined(j);
    tasks := Each((xs: seq<J.Pair>) => Map(g, xs), pairs);
    MapFlatten(g, pairs);
  }

  /** The exchange buffers after the map phase. */
  method Exchange(batches: seq<seq<Row>>, key: nat, n: nat, orders: seq<seq<nat>>) returns (buffers: seq<seq<Row>>)
    requires n > 0 && J.BatchesKeyed(batches, key) && Orders(orders, n, |batches|)
    ensures J.Partitioned(buffers, multiset(Flatten(batches)), key, n)
  {
    hide J.Bucket, J.Buckets, Flatten, J.Partitioned;
    var locals: seq<seq<seq<Row>>> := [];
    for t := 0 to |batches|
      invariant |locals| == t && forall i :: 0 <= i < t ==>
        |locals[i]| == n && forall p :: 0 <= p < n ==> locals[i][p] == J.Bucket(batches[i], key, n, p)
    {
      assert J.AllKeyed(batches[t], key);
      var local := J.Partition(batches[t], key, n);
      locals := locals + [local];
    }
    buffers := [];
    ghost var ds: seq<seq<seq<Row>>> := [];
    for p := 0 to n
      invariant |ds| == p && buffers == J.Buffers(ds)
      invariant forall q :: 0 <= q < p ==> multiset(ds[q]) == multiset(J.Buckets(batches, key, n, q))
    {
      var buffer;
      ghost var d;
      buffer, d := Drain(locals, p, orders[p], batches, key, n);
      ds := ds + [d];
      buffers := buffers + [buffer];
    }
    J.DepositsPartition(ds, batches, key, n);
  }

  /** One partition's buffer: the buckets of the tasks, in the order the tasks came. */
  method Drain(locals: seq<seq<seq<Row>>>, p: nat, order: seq<nat>, ghost batches: seq<seq<Row>>, ghost key: nat, ghost n: nat)
    returns (buffer: seq<Row>, ghost d: seq<seq<Row>>)
    requires n > 0 && p < n && J.BatchesKeyed(batches, key) && |locals| == |batches|
    requires forall i :: 0 <= i < |locals| ==> |locals[i]| == n && locals[i][p] == J.Bucket(batches[i], key, n, p)
    requires multiset(order) == multiset(Range(|locals|))
    ensures buffer == Flatten(d) && multiset(d) == multiset(J.Buckets(batches, key, n, p))
  {
    hide J.Bucket, Flatten;
    buffer, d := [], [];
    ghost var f := (t: nat) => if t < |locals| && p < |locals[t]| then locals[t][p] else [];
    FlattenNone<Row>();
    for i := 0 to |order|
      invariant buffer == Flatten(d) && |d| == i && forall k :: 0 <= k < i ==> d[k] == f(order[k])
    {
      InRange(order, |locals|, i);
      J.FlattenSnoc(d, locals[order[i]][p]);
      buffer := buffer + locals[order[i]][p];
      d := d + [locals[order[i]][p]];
    }
    assert d == Map(f, order);
    MapPermutes(f, order, Range(|locals|));
    BucketsAre(batches, key, n, p);
    assert Map(f, Range(|locals|)) == J.Buckets(batches, key, n, p);
  }

  lemma InRange(order: seq<nat>, n: nat, i: nat)
    requires multiset(order) == multiset(Range(n)) && i < |order|
    ensures order[i] < n
  {
    assert order[i] in multiset(order);
    assert order[i] in Range(n);
  }

  lemma {:induction false} BucketsAre(batches: seq<seq<Row>>, k: nat, n: nat, p: nat)
    requires n > 0 && J.BatchesKeyed(batches, k)
    ensures |J.Buckets(batches, k, n, p)| == |batches|
    ensures forall t :: 0 <= t < |batches| ==> J.Buckets(batches, k, n, p)[t] == J.Bucket(batches[t], k, n, p)
  {
    hide J.Bucket;
    if batches != [] {
      BucketsAre(batches[..|batches| - 1], k, n, p);
    }
  }

  /** The reduce tasks of a shuffle join: one build and probe per partition. */
  method ShuffleJoin(p: PhysicalPlan, j: JoinNode, n: nat, t: Timing) returns (tasks: seq<seq<JoinedRow>>)
    requires Executable(p) && p.join == Some(j) && j.strategy == Shuffle(n) && Possible(p, t)
    ensures |tasks| == n && multiset(Flatten(tasks)) == multiset(Map(ToJoined(j), PlanPairs(p, j)))
  {
    hide Map, Flatten, ScanAll, Batches, J.NestedLoop, ToJoined, J.Partitioned, Ramp.Schedule, ScanReady;
    var bb := ScanTasks(p.scans[j.build]);
    var pb := ScanTasks(p.scans[j.probe]);
    var builds := Exchange(bb, j.buildKey, n, t.buildOrders);
    var probes := Exchange(pb, j.probeKey, n, t.probeOrders);
    var g := ToJoined(j);
    ghost var pairs;
    tasks, pairs := JoinPartitions(builds, probes, j, bb, pb, n);
    J.PartitionedIsNestedLoop(builds, probes, Flatten(bb), Flatten(pb), j.buildKey, j.probeKey, n);
    BatchesFlatten(p.scans[j.build]);
    BatchesFlatten(p.scans[j.probe]);
    MapFlatten(g, pairs);
    MapPermutes(g, Flatten(pairs), PlanPairs(p, j));
  }

  method JoinPartitions(builds: seq<seq<Row>>, probes: seq<seq<Row>>, j: JoinNode, ghost bb: seq<seq<Row>>, ghost pb: seq<seq<Row>>, n: nat)
    returns (tasks: seq<seq<JoinedRow>>, ghost pairs: seq<seq<J.Pair>>)
    requires n > 0 && J.Partitioned(builds, multiset(Flatten(bb)), j.buildKey, n) && J.Partitioned(probes, multiset(Flatten(pb)), j.probeKey, n)
    ensures |builds| == |probes| == n == |tasks| && pairs == J.ShuffleTasks(builds, probes, j.buildKey, j.probeKey)
    ensures tasks == Map((xs: seq<J.Pair>) => Map(ToJoined(j), xs), pairs)
  {
    hide J.Partitioned, Map, Flatten, J.NestedLoop, ToJoined;
    J.PartitionedSize(builds, multiset(Flatten(bb)), j.buildKey, n);
    J.PartitionedSize(probes, multiset(Flatten(pb)), j.probeKey, n);
    var g := ToJoined(j);
    tasks, pairs := [], [];
    for p := 0 to n
      invariant |tasks| == p == |pairs| && pairs == J.ShuffleTasks(builds[..p], probes[..p], j.buildKey, j.probeKey)
      invariant forall i :: 0 <= i < p ==> tasks[i] == Map(g, pairs[i])
    {
      PartitionKeyed(probes, multiset(Flatten(pb)), j.probeKey, n, p);
      var found := J.HashJoin(builds[p], probes[p], j.buildKey, j.probeKey);
      assert builds[..p + 1][..p] == builds[..p] && probes[..p + 1][..p] == probes[..p];
      var joined := Each(g, found);
      pairs := pairs + [found];
      tasks := tasks + [joined];
    }
    assert builds[..n] == builds && probes[..n] == probes;
    assert tasks == Map((xs: seq<J.Pair>) => Map(g, xs), pairs);
  }

  lemma PartitionKeyed(buffers: seq<seq<Row>>, rows: multiset<Row>, k: nat, n: nat, p: nat)
    requires n > 0 && J.Partitioned(buffers, rows, k, n) && p < n == |buffers|
    ensures J.AllKeyed(buffers[p], k)
  {
    hide J.PartOf;
    forall i | 0 <= i < |buffers[p]| ensures J.Keyed(buffers[p][i], k) {
      var x := buffers[p][i];
      assert x in multiset(buffers[p]);
      J.PartitionedAt(buffers, rows, k, n, p, x);
    }
  }

  /** `execute` up to TopN: for any timing, the output of the plan's joined rows. */
  method Execute(p: PhysicalPlan, t: Timing) returns (rows: seq<seq<Val>>)
    requires Executable(p) && Possible(p, t)
    ensures Outputs(SelectOf(p.output), GroupOf(p.groupBy), PlanRows(p), rows)
  {
    hide Outputs, Flatten, Map, Batches, ScanAll, J.NestedLoop, ToJoined, J.BatchesKeyed, Ramp.Schedule, SelectOf, GroupOf, ScanReady;
    var tasks;
    match p.join {
      case None => tasks := ScanOnly(p.scans[0]);
      case Some(j) =>
        match j.strategy {
          case Broadcast => tasks := BroadcastJoin(p, j);
          case Shuffle(n) => tasks := ShuffleJoin(p, j, n, t);
        }
    }
    rows := ExecuteTasks(SelectOf(p.output), GroupOf(p.groupBy), tasks, t.runs);
    OutputsPermute(SelectOf(p.output), GroupOf(p.groupBy), Flatten(tasks), PlanRows(p), rows);
  }
}
