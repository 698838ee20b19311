/** Zone maps over blocks, reclustering, and why neither changes an answer. */
module Cluster {
  import opened Wrappers
  import opened Bytes
  import opened BlitzChunks
  import opened BlitzReader
  import opened Permutations
  import opened Monoids
  import opened Morsels
  import K = Kernels

  const BLOCK_ROWS: nat := 65536

  datatype ZoneMap = ZoneMap(min: i64, max: i64)

  /** Every block has `n` columns of as many values as it has rows. */
  ghost predicate GoodBlocks(blocks: seq<Block>, n: nat) {
    forall b :: 0 <= b < |blocks| ==> GoodBlock(blocks[b], n)
  }

  ghost predicate GoodBlock(b: Block, n: nat) {
    |b.columns| == n && forall c :: 0 <= c < n ==> |b.columns[c]| == b.rows
  }

  /** Each zone is the exact minimum and maximum of its column. */
  ghost predicate ExactZones(blocks: seq<Block>, zones: seq<seq<ZoneMap>>) {
    |zones| == |blocks| && forall b :: 0 <= b < |blocks| ==> ExactZone(blocks[b], zones[b])
  }

  ghost predicate ExactZone(b: Block, zones: seq<ZoneMap>) {
    |zones| == |b.columns| && forall c :: 0 <= c < |zones| ==> Zone(b.columns[c], zones[c].min, zones[c].max)
  }

  /** All rows of the table, block by block. */
  function AllRows(blocks: seq<Block>): seq<Row> {
    Flatten(Map(RowsOf, blocks))
  }

  // ---- pruning ----

  /** The block cannot be skipped for this filter. */
  predicate Scanned(zones: seq<ZoneMap>, filter: Option<(nat, Op, i64)>) {
    match filter
    case None => true
    case Some((c, op, lit)) => c < |zones| && !ZonePrunes(zones[c].min, zones[c].max, op, lit)
  }

  /** Some value between the zone's bounds would pass the filter. */
  ghost predicate MayHold(zones: seq<ZoneMap>, filter: Option<(nat, Op, i64)>) {
    match filter
    case None => true
    case Some((c, op, lit)) => c < |zones| && exists v: i64 :: zones[c].min <= v <= zones[c].max && Hit(v, op, lit)
  }

  /** A block with rows is scanned exactly if it may hold a row that passes. */
  lemma ScannedIff(b: Block, zones: seq<ZoneMap>, filter: Option<(nat, Op, i64)>)
    requires ExactZone(b, zones) && b.rows > 0 && forall c :: 0 <= c < |b.columns| ==> |b.columns[c]| == b.rows
    ensures Scanned(zones, filter) <==> MayHold(zones, filter)
  {
    hide ZonePrunes, Hit;
    if filter.Some? && filter.value.0 < |zones| {
      var (c, op, lit) := filter.value;
      assert b.columns[c][0] in b.columns[c];
      ZonePrunesIff(zones[c].min, zones[c].max, op, lit);
    }
  }

  lemma {:induction false} PrunedAre(zones: seq<seq<ZoneMap>>, filter: Option<(nat, Op, i64)>, k: nat)
    requires k <= |zones|
    ensures forall b :: b in PrunedTo(zones, filter, k) <==> 0 <= b < k && Scanned(zones[b], filter)
    ensures forall i, j :: 0 <= i < j < |PrunedTo(zones, filter, k)| ==> PrunedTo(zones, filter, k)[i] < PrunedTo(zones, filter, k)[j]
    decreases k
  {
    hide Scanned;
    if k > 0 {
      PrunedAre(zones, filter, k - 1);
    }
  }

  /** The blocks left are those that may hold a row that passes, in order. */
  lemma PrunedExactly(blocks: seq<Block>, zones: seq<seq<ZoneMap>>, filter: Option<(nat, Op, i64)>, n: nat)
    requires GoodBlocks(blocks, n) && ExactZones(blocks, zones)
    ensures var ms := PrunedTo(zones, filter, |blocks|);
            && (forall i, j :: 0 <= i < j < |ms| ==> ms[i] < ms[j])
            && forall b :: 0 <= b < |blocks| && blocks[b].rows > 0 ==> (b in ms <==> MayHold(zones[b], filter))
  {
    hide Zone, MayHold, Scanned, PrunedTo;
    PrunedAre(zones, filter, |blocks|);
    forall b | 0 <= b < |blocks| && blocks[b].rows > 0 ensures Scanned(zones[b], filter) <==> MayHold(zones[b], filter) {
      assert ExactZone(blocks[b], zones[b]) && GoodBlock(blocks[b], n);
      ScannedIff(blocks[b], zones[b], filter);
    }
  }

  function PrunedTo(zones: seq<seq<ZoneMap>>, filter: Option<(nat, Op, i64)>, k: nat): (ms: seq<nat>)
    requires k <= |zones|
    ensures forall i :: 0 <= i < |ms| ==> ms[i] < k
  {
    if k == 0 then [] else PrunedTo(zones, filter, k - 1) + if Scanned(zones[k - 1], filter) then [k - 1] else []
  }

  /** `exec_morsel` on block `m`. */
  ghost function Exec(blocks: seq<Block>, q: Query): nat -> Partial {
    (m: nat) => if m < |blocks| then OfRows(RowsOf(blocks[m]), q) else NONE
  }

  /** A skipped block adds nothing. */
  lemma SkippedAddsNothing(b: Block, zones: seq<ZoneMap>, q: Query)
    requires ExactZone(b, zones) && Covers(b, q) && !Scanned(zones, q.filter)
    ensures OfRows(RowsOf(b), q) == NONE
  {
    hide OfRows, Zone, ZonePrunes, Hit;
    var (c, op, lit) := q.filter.value;
    ZonePrunesExactly(b.columns[c], zones[c].min, zones[c].max, op, lit);
    forall r | r in RowsOf(b) ensures !Passes(r, q) {
      var i :| 0 <= i < |RowsOf(b)| && RowsOf(b)[i] == r;
      assert r[c] == b.columns[c][i];
    }
    NothingPasses(RowsOf(b), q);
  }

  lemma AllRowsSnoc(blocks: seq<Block>, b: Block)
    ensures AllRows(blocks + [b]) == AllRows(blocks) + RowsOf(b)
  {
    hide RowsOf;
    assert (blocks + [b])[..|blocks|] == blocks;
    var xs := Map(RowsOf, blocks);
    assert (xs + [RowsOf(b)])[..|xs|] == xs;
  }

  /** The morsels left after pruning give the answer over all rows. */
  lemma {:induction false} PrunedAnswer(blocks: seq<Block>, zones: seq<seq<ZoneMap>>, q: Query, k: nat)
    requires ExactZones(blocks, zones) && k <= |blocks| && forall b :: 0 <= b < |blocks| ==> Covers(blocks[b], q)
    ensures Total(Map(Exec(blocks, q), PrunedTo(zones, q.filter, k))) == OfRows(AllRows(blocks[..k]), q)
    decreases k
  {
    hide OfRows, MergePartial, Scanned, RowsOf, AllRows, Total, Map, ExactZone, Covers;
    if k == 0 {
      NoBlocks(blocks, q);
    } else {
      PrunedAnswer(blocks, zones, q, k - 1);
      var b := blocks[k - 1];
      assert blocks[..k] == blocks[..k - 1] + [b];
      AllRowsSnoc(blocks[..k - 1], b);
      OfRowsConcat(AllRows(blocks[..k - 1]), RowsOf(b), q);
      if Scanned(zones[k - 1], q.filter) {
        ExecSnoc(blocks, q, PrunedTo(zones, q.filter, k - 1), k - 1);
      } else {
        SkippedAddsNothing(b, zones[k - 1], q);
        AddsNothing(OfRows(AllRows(blocks[..k - 1]), q));
        assert PrunedTo(zones, q.filter, k - 1) + [] == PrunedTo(zones, q.filter, k - 1);
      }
    }
  }

  lemma NoBlocks(blocks: seq<Block>, q: Query)
    ensures Total(Map(Exec(blocks, q), [])) == NONE == OfRows(AllRows(blocks[..0]), q)
  {
  }

  lemma AddsNothing(p: Partial)
    ensures MergePartial(p, NONE) == p
  {
    PartialLaws();
  }

  lemma ExecSnoc(blocks: seq<Block>, q: Query, ms: seq<nat>, m: nat)
    requires m < |blocks|
    ensures Total(Map(Exec(blocks, q), ms + [m])) == MergePartial(Total(Map(Exec(blocks, q), ms)), OfRows(RowsOf(blocks[m]), q))
  {
    hide OfRows, MergePartial, RowsOf;
    var f := Exec(blocks, q);
    assert (ms + [m])[..|ms|] == ms;
    var xs := Map(f, ms);
    assert (xs + [f(m)])[..|xs|] == xs;
  }

  // ---- reclustering ----

  /** A row's place on the curve, its block and its row number. */
  type Entry = (nat, nat, nat)

  ghost predicate SortedEntries(idx: seq<Entry>) {
    forall i, j :: 0 <= i < j < |idx| ==> idx[i].0 <= idx[j].0
  }

  /** Where an entry goes: behind every one that is not above it. */
  method PlaceFor(sorted: seq<Entry>, e: Entry) returns (k: nat)
    requires SortedEntries(sorted)
    ensures k <= |sorted| && (k > 0 ==> sorted[k - 1].0 <= e.0)
    ensures forall j :: k <= j < |sorted| ==> e.0 <= sorted[j].0
  {
    k := |sorted|;
    while k > 0 && sorted[k - 1].0 > e.0
      invariant 0 <= k <= |sorted| && forall j :: k <= j < |sorted| ==> e.0 <= sorted[j].0
    {
      k := k - 1;
    }
  }

  lemma SortedJoin(a: seq<Entry>, b: seq<Entry>)
    requires SortedEntries(a) && SortedEntries(b) && (a != [] && b != [] ==> a[|a| - 1].0 <= b[0].0)
    ensures SortedEntries(a + b)
  {
  }

  lemma Inserted(sorted: seq<Entry>, e: Entry, k: nat)
    requires SortedEntries(sorted) && k <= |sorted| && (k > 0 ==> sorted[k - 1].0 <= e.0)
    requires forall j :: k <= j < |sorted| ==> e.0 <= sorted[j].0
    ensures SortedEntries(sorted[..k] + [e] + sorted[k..])
  {
    hide SortedEntries;
    SortedParts(sorted, k);
    OneSorted(e);
    SortedJoin(sorted[..k], [e]);
    SortedJoin(sorted[..k] + [e], sorted[k..]);
  }

  lemma SortedParts(sorted: seq<Entry>, k: nat)
    requires SortedEntries(sorted) && k <= |sorted|
    ensures SortedEntries(sorted[..k]) && SortedEntries(sorted[k..])
  {
  }

  lemma OneSorted(e: Entry)
    ensures SortedEntries([e]) && SortedEntries([])
  {
  }

  lemma InsertedMultiset(sorted: seq<Entry>, e: Entry, k: nat)
    requires k <= |sorted|
    ensures multiset(sorted[..k] + [e] + sorted[k..]) == multiset(sorted) + multiset{e}
  {
    assert sorted == sorted[..k] + sorted[k..];
  }

  method SortEntries(idx: seq<Entry>) returns (sorted: seq<Entry>)
    ensures multiset(sorted) == multiset(idx) && SortedEntries(sorted)
  {
    hide SortedEntries;
    sorted := [];
    OneSorted((0, 0, 0));
    for i := 0 to |idx|
      invariant multiset(sorted) == multiset(idx[..i]) && SortedEntries(sorted)
    {
      var k := PlaceFor(sorted, idx[i]);
      Inserted(sorted, idx[i], k);
      InsertedMultiset(sorted, idx[i], k);
      assert idx[..i + 1] == idx[..i] + [idx[i]];
      sorted := sorted[..k] + [idx[i]] + sorted[k..];
    }
    assert idx[..|idx|] == idx;
  }

  /** The row an entry stands for. */
  function RowOf(blocks: seq<Block>, e: Entry): Row {
    if e.1 < |blocks| then RowAt(blocks[e.1], e.2) else []
  }

  function RowFinder(blocks: seq<Block>): Entry -> Row {
    (e: Entry) => RowOf(blocks, e)
  }

  /** Every block but the last holds exactly as many rows as a block may, and none is empty. */
  ghost predicate FullBlocks(blocks: seq<Block>) {
    && (forall b :: 0 <= b < |blocks| - 1 ==> blocks[b].rows == BLOCK_ROWS)
    && forall b :: 0 <= b < |blocks| ==> 0 < blocks[b].rows <= BLOCK_ROWS
  }

  ghost predicate AllFull(blocks: seq<Block>) {
    forall b :: 0 <= b < |blocks| ==> blocks[b].rows == BLOCK_ROWS
  }

  /** The index of all rows: place on the curve, block, row. */
  method IndexRows(blocks: seq<Block>, zkey: Row -> nat) returns (idx: seq<Entry>)
    ensures Map(RowFinder(blocks), idx) == AllRows(blocks)
    ensures forall i :: 0 <= i < |idx| ==> Placed(blocks, zkey, idx[i])
  {
    hide AllRows, Map, RowsOf, RowAt, RowFinder;
    idx := [];
    NoEntries(blocks);
    for b := 0 to |blocks|
      invariant Map(RowFinder(blocks), idx) == AllRows(blocks[..b])
      invariant forall i :: 0 <= i < |idx| ==> Placed(blocks, zkey, idx[i])
    {
      ghost var before := idx;
      BlockStart(blocks, before, b);
      for r := 0 to blocks[b].rows
        invariant Map(RowFinder(blocks), idx) == Map(RowFinder(blocks), before) + RowsUpTo(blocks[b], r)
        invariant forall i :: 0 <= i < |idx| ==> Placed(blocks, zkey, idx[i])
      {
        FinderSnoc(blocks, idx, (zkey(RowAt(blocks[b], r)), b, r));
        idx := idx + [(zkey(RowAt(blocks[b], r)), b, r)];
      }
      AllRowsSnoc(blocks[..b], blocks[b]);
      RowsOfIs(blocks[b]);
      assert blocks[..b + 1] == blocks[..b] + [blocks[b]];
    }
    assert blocks[..|blocks|] == blocks;
  }

  ghost predicate Placed(blocks: seq<Block>, zkey: Row -> nat, e: Entry) {
    e.1 < |blocks| && e.2 < blocks[e.1].rows && e.0 == zkey(RowAt(blocks[e.1], e.2))
  }

  lemma NoEntries(blocks: seq<Block>)
    ensures Map(RowFinder(blocks), []) == AllRows(blocks[..0])
  {
  }

  lemma BlockStart(blocks: seq<Block>, idx: seq<Entry>, b: nat)
    requires b < |blocks|
    ensures Map(RowFinder(blocks), idx) + RowsUpTo(blocks[b], 0) == Map(RowFinder(blocks), idx)
  {
  }

  lemma RowsOfIs(b: Block)
    ensures RowsOf(b) == RowsUpTo(b, b.rows)
  {
  }

  lemma FinderSnoc(blocks: seq<Block>, idx: seq<Entry>, e: Entry)
    requires e.1 < |blocks|
    ensures Map(RowFinder(blocks), idx + [e]) == Map(RowFinder(blocks), idx) + [RowAt(blocks[e.1], e.2)]
  {
    assert (idx + [e])[..|idx|] == idx;
  }

  /** One column after another takes its value of the row. */
  method PushRow(cur: seq<seq<i64>>, row: Row) returns (after: seq<seq<i64>>)
    requires |row| == |cur|
    ensures |after| == |cur| && forall c :: 0 <= c < |cur| ==> after[c] == cur[c] + [row[c]]
  {
    after := cur;
    for c := 0 to |cur|
      invariant |after| == |cur|
      invariant forall d :: 0 <= d < |cur| ==> after[d] == if d < c then cur[d] + [row[d]] else cur[d]
    {
      after := after[c := cur[c] + [row[c]]];
    }
  }

  /** The columns being filled, `k` rows long. */
  ghost predicate Columns(cur: seq<seq<i64>>, ncols: nat, k: nat) {
    |cur| == ncols && forall c :: 0 <= c < ncols ==> |cur[c]| == k
  }

  lemma {:induction false} RowsPrefix(a: Block, b: Block, k: nat)
    requires |a.columns| == |b.columns| && forall c :: 0 <= c < |a.columns| ==> k <= |a.columns[c]| && a.columns[c] <= b.columns[c]
    ensures RowsUpTo(a, k) == RowsUpTo(b, k)
  {
    if k > 0 {
      RowsPrefix(a, b, k - 1);
      assert RowAt(a, k - 1) == RowAt(b, k - 1);
    }
  }

  lemma RowPushed(cur: seq<seq<i64>>, after: seq<seq<i64>>, row: Row, ncols: nat, k: nat)
    requires Columns(cur, ncols, k) && |row| == ncols && |after| == ncols
    requires forall c :: 0 <= c < ncols ==> after[c] == cur[c] + [row[c]]
    ensures Columns(after, ncols, k + 1) && RowsOf(Block(after, k + 1)) == RowsOf(Block(cur, k)) + [row]
  {
    RowsPrefix(Block(cur, k), Block(after, k + 1), k);
    RowsPrefix(Block(after, k), Block(after, k + 1), k);
    assert RowAt(Block(after, k + 1), k) == row;
  }

  /** Blocks rebuilt from the sorted index hold its rows in its order. */
  method Rebuild(blocks: seq<Block>, idx: seq<Entry>, ncols: nat) returns (rebuilt: seq<Block>)
    requires ncols > 0 && GoodBlocks(blocks, ncols)
    requires forall i :: 0 <= i < |idx| ==> idx[i].1 < |blocks| && idx[i].2 < blocks[idx[i].1].rows
    ensures AllRows(rebuilt) == Map(RowFinder(blocks), idx)
    ensures GoodBlocks(rebuilt, ncols) && FullBlocks(rebuilt)
  {
    hide AllRows, Map, RowsOf, RowFinder;
    rebuilt := [];
    var cur := NoColumns(ncols);
    var k: nat := 0;
    NothingRebuilt(blocks, cur, ncols);
    for i := 0 to |idx|
      invariant k < BLOCK_ROWS && Columns(cur, ncols, k) && GoodBlocks(rebuilt, ncols) && AllFull(rebuilt)
      invariant AllRows(rebuilt) + RowsOf(Block(cur, k)) == Map(RowFinder(blocks), idx[..i])
    {
      var row := RowAt(blocks[idx[i].1], idx[i].2);
      assert GoodBlock(blocks[idx[i].1], ncols);
      var after := PushRow(cur, row);
      RowPushed(cur, after, row, ncols, k);
      FinderSnoc(blocks, idx[..i], idx[i]);
      assert idx[..i + 1] == idx[..i] + [idx[i]];
      assert AllRows(rebuilt) + (RowsOf(Block(cur, k)) + [row]) == AllRows(rebuilt) + RowsOf(Block(cur, k)) + [row];
      cur, k := after, k + 1;
      if k == BLOCK_ROWS {
        AllRowsSnoc(rebuilt, Block(cur, k));
        rebuilt := rebuilt + [Block(cur, k)];
        cur, k := NoColumns(ncols), 0;
        NothingRebuilt(blocks, cur, ncols);
      }
    }
    assert idx[..|idx|] == idx;
    if k > 0 {
      AllRowsSnoc(rebuilt, Block(cur, k));
      rebuilt := rebuilt + [Block(cur, k)];
    } else {
      EmptyBlock(cur);
    }
  }

  function NoColumns(ncols: nat): seq<seq<i64>> {
    seq(ncols, _ => [])
  }

  lemma NothingRebuilt(blocks: seq<Block>, cur: seq<seq<i64>>, ncols: nat)
    requires cur == NoColumns(ncols)
    ensures Columns(cur, ncols, 0) && RowsOf(Block(cur, 0)) == [] && AllRows([]) == [] && Map(RowFinder(blocks), []) == []
  {
  }

  lemma EmptyBlock(cur: seq<seq<i64>>)
    ensures RowsOf(Block(cur, 0)) == []
  {
  }

  /** `ZoneMap::build`. */
  method BuildZone(data: seq<i64>) returns (z: ZoneMap)
    ensures Zone(data, z.min, z.max)
  {
    var min, max := I64_MAX, I64_MIN;
    for i := 0 to |data|
      invariant Zone(data[..i], min, max)
    {
      K.SumSnoc(data, i);
      min, max := MinI(min, data[i]), MaxI(max, data[i]);
    }
    assert data[..|data|] == data;
    z := ZoneMap(min, max);
  }

  /** `build_zones`. */
  method BuildZones(blocks: seq<Block>) returns (zones: seq<seq<ZoneMap>>)
    ensures ExactZones(blocks, zones)
  {
    hide Zone;
    zones := [];
    for b := 0 to |blocks|
      invariant |zones| == b && forall i :: 0 <= i < b ==> ExactZone(blocks[i], zones[i])
    {
      var zs: seq<ZoneMap> := [];
      for c := 0 to |blocks[b].columns|
        invariant |zs| == c && forall i :: 0 <= i < c ==> Zone(blocks[b].columns[i], zs[i].min, zs[i].max)
      {
        var z := BuildZone(blocks[b].columns[c]);
        zs := zs + [z];
      }
      zones := zones + [zs];
    }
  }

  // ---- the table ----

  /** The rows in curve order. */
  ghost predicate Ordered(rows: seq<Row>, zkey: Row -> nat) {
    forall i, j :: 0 <= i < j < |rows| ==> zkey(rows[i]) <= zkey(rows[j])
  }

  lemma SortedRows(blocks: seq<Block>, zkey: Row -> nat, idx: seq<Entry>, sorted: seq<Entry>)
    requires multiset(sorted) == multiset(idx) && SortedEntries(sorted)
    requires forall i :: 0 <= i < |idx| ==> Placed(blocks, zkey, idx[i])
    ensures forall i :: 0 <= i < |sorted| ==> Placed(blocks, zkey, sorted[i])
    ensures Ordered(Map(RowFinder(blocks), sorted), zkey)
    ensures multiset(Map(RowFinder(blocks), sorted)) == multiset(Map(RowFinder(blocks), idx))
  {
    hide Placed, RowAt;
    forall i | 0 <= i < |sorted| ensures Placed(blocks, zkey, sorted[i]) {
      assert sorted[i] in multiset(sorted);
      assert sorted[i] in idx;
    }
    MapPermutes(RowFinder(blocks), sorted, idx);
    forall i | 0 <= i < |sorted| ensures zkey(Map(RowFinder(blocks), sorted)[i]) == sorted[i].0 {
      PlacedAt(blocks, zkey, sorted[i]);
    }
  }

  lemma PlacedAt(blocks: seq<Block>, zkey: Row -> nat, e: Entry)
    requires Placed(blocks, zkey, e)
    ensures e.1 < |blocks| && e.2 < blocks[e.1].rows && zkey(RowOf(blocks, e)) == e.0
  {
  }

  class ClusteredTable {
    var blocks: seq<Block>
    var zones: seq<seq<ZoneMap>>
    var clusterKeys: seq<nat>

    ghost predicate Valid(ncols: nat)
      reads this
    {
      GoodBlocks(blocks, ncols) && ExactZones(blocks, zones)
    }

    constructor FromBlocks(blocks: seq<Block>, ghost ncols: nat)
      requires GoodBlocks(blocks, ncols)
      ensures Valid(ncols) && this.blocks == blocks && clusterKeys == []
    {
      var built := BuildZones(blocks);
      this.blocks := blocks;
      zones := built;
      clusterKeys := [];
    }

    /** `pruned_morsels`. */
    method PrunedMorsels(filter: Option<(nat, Op, i64)>, ghost ncols: nat) returns (ms: seq<nat>)
      requires Valid(ncols) && (filter.Some? ==> filter.value.0 < ncols)
      ensures ms == PrunedTo(zones, filter, |blocks|)
      ensures forall i, j :: 0 <= i < j < |ms| ==> ms[i] < ms[j]
      ensures forall b :: 0 <= b < |blocks| && blocks[b].rows > 0 ==> (b in ms <==> MayHold(zones[b], filter))
    {
      hide ZonePrunes, Zone, MayHold;
      PrunedExactly(blocks, zones, filter, ncols);
      ms := [];
      for b := 0 to |blocks|
        invariant ms == PrunedTo(zones, filter, b)
      {
        assert ExactZone(blocks[b], zones[b]);
        if Scanned(zones[b], filter) {
          ms := ms + [b];
        }
      }
    }

    /** `recluster`, for the keys the workload chose and any place of a row on the curve. */
    method Recluster(keys: seq<nat>, zkey: Row -> nat, ncols: nat)
      requires Valid(ncols) && ncols > 0 && (keys != [] ==> blocks != [])
      modifies this
      ensures Valid(ncols) && multiset(AllRows(blocks)) == multiset(AllRows(old(blocks)))
      ensures keys == [] ==> blocks == old(blocks) && zones == old(zones) && clusterKeys == old(clusterKeys)
      ensures keys != [] ==> Ordered(AllRows(blocks), zkey) && FullBlocks(blocks) && clusterKeys == keys
    {
      hide AllRows, Map, ExactZone, Placed, RowAt;
      if keys == [] {
        return;
      }
      var idx := IndexRows(blocks, zkey);
      var sorted := SortEntries(idx);
      SortedRows(blocks, zkey, idx, sorted);
      forall i | 0 <= i < |sorted| ensures sorted[i].1 < |blocks| && sorted[i].2 < blocks[sorted[i].1].rows {
        PlacedAt(blocks, zkey, sorted[i]);
      }
      var rebuilt := Rebuild(blocks, sorted, ncols);
      zones := BuildZones(rebuilt);
      blocks := rebuilt;
      clusterKeys := keys;
    }
  }

  lemma AllCover(blocks: seq<Block>, n: nat, q: Query)
    requires GoodBlocks(blocks, n) && Names(q, n)
    ensures forall b :: 0 <= b < |blocks| ==> Covers(blocks[b], q)
  {
    forall b | 0 <= b < |blocks| ensures Covers(blocks[b], q) {
      assert GoodBlock(blocks[b], n);
    }
  }

  /** The columns a query names exist. */
  predicate Names(q: Query, n: nat) {
    && q.aggCol < n && (q.groupBy.Some? ==> q.groupBy.value < n)
    && match q.filter
       case None => true
       case Some((c, _, _)) => c < n
  }

  /** Neither pruning nor reclustering changes an answer: over any two layouts of the same rows, each pruned by
      its own exact zones, the morsels add up to the same result, the answer over all rows. */
  lemma SameAnswer(a: seq<Block>, az: seq<seq<ZoneMap>>, b: seq<Block>, bz: seq<seq<ZoneMap>>, q: Query, n: nat)
    requires GoodBlocks(a, n) && GoodBlocks(b, n) && Names(q, n) && ExactZones(a, az) && ExactZones(b, bz)
    requires multiset(AllRows(a)) == multiset(AllRows(b))
    ensures Total(Map(Exec(a, q), PrunedTo(az, q.filter, |a|))) == OfRows(AllRows(a), q)
    ensures Total(Map(Exec(b, q), PrunedTo(bz, q.filter, |b|))) == OfRows(AllRows(a), q)
  {
    hide OfRows, AllRows, Total, Map, ExactZones, PrunedTo;
    AllCover(a, n, q);
    AllCover(b, n, q);
    PrunedAnswer(a, az, q, |a|);
    PrunedAnswer(b, bz, q, |b|);
    assert a[..|a|] == a && b[..|b|] == b;
    OfRowsPermutes(AllRows(a), AllRows(b), q);
  }
}
