/** Broadcast and shuffle hash joins against the nested loop. */
module Joins {
  import opened Bytes
  import opened LateScan
  import opened Rows
  import opened Permutations

  /** A build row and the probe row it joins with. */
  type Pair = (Row, Row)

  /** Join keys are Int64 cells. */
  predicate Keyed(row: Row, k: nat) {
    k < |row| && row[k].I?
  }

  predicate Matches(b: Row, p: Row, bk: nat, pk: nat) {
    Keyed(b, bk) && Keyed(p, pk) && b[bk] == p[pk]
  }

  function MatchesOf(build: seq<Row>, p: Row, bk: nat, pk: nat): seq<Pair> {
    if build == [] then [] else
    var n := |build| - 1;
    MatchesOf(build[..n], p, bk, pk) + if Matches(build[n], p, bk, pk) then [(build[n], p)] else []
  }

  /** Every pair of rows with equal keys: the definition of the join. */
  function NestedLoop(build: seq<Row>, probe: seq<Row>, bk: nat, pk: nat): seq<Pair> {
    if probe == [] then [] else
    NestedLoop(build, probe[..|probe| - 1], bk, pk) + MatchesOf(build, probe[|probe| - 1], bk, pk)
  }

  // ---- how often a pair is joined ----

  lemma {:induction false} MatchesCount(build: seq<Row>, p: Row, bk: nat, pk: nat, x: Pair)
    ensures multiset(MatchesOf(build, p, bk, pk))[x]
         == if x.1 == p && Matches(x.0, p, bk, pk) then multiset(build)[x.0] else 0
  {
    hide Matches;
    if build != [] {
      var n := |build| - 1;
      MatchesCount(build[..n], p, bk, pk, x);
      assert build == build[..n] + [build[n]];
    }
  }

  lemma Distributes(b: nat, p: nat)
    ensures b * (p + 1) == b * p + b
  {
  }

  /** A pair is joined once for each occurrence of its build row with each occurrence of its probe row. */
  lemma {:induction false} NestedLoopCount(build: seq<Row>, probe: seq<Row>, bk: nat, pk: nat, x: Pair)
    ensures multiset(NestedLoop(build, probe, bk, pk))[x]
         == if Matches(x.0, x.1, bk, pk) then multiset(build)[x.0] * multiset(probe)[x.1] else 0
  {
    hide Matches, MatchesOf;
    if probe != [] {
      var n := |probe| - 1;
      NestedLoopCount(build, probe[..n], bk, pk, x);
      MatchesCount(build, probe[n], bk, pk, x);
      assert probe == probe[..n] + [probe[n]];
      Distributes(multiset(build)[x.0], multiset(probe[..n])[x.1]);
    }
  }

  lemma {:induction false} NestedLoopConcat(build: seq<Row>, a: seq<Row>, b: seq<Row>, bk: nat, pk: nat)
    ensures NestedLoop(build, a + b, bk, pk) == NestedLoop(build, a, bk, pk) + NestedLoop(build, b, bk, pk)
    decreases |b|
  {
    hide MatchesOf;
    if b == [] {
      assert a + b == a;
    } else {
      var n := |b| - 1;
      NestedLoopConcat(build, a, b[..n], bk, pk);
      assert (a + b)[..|a| + n] == a + b[..n];
    }
  }

  // ---- the hash table ----

  /** The rows with key `k`, by position, in order. */
  function Positions(build: seq<Row>, bk: nat, k: i64): (ps: seq<nat>)
    ensures forall i :: 0 <= i < |ps| ==> ps[i] < |build|
  {
    if build == [] then [] else
    var n := |build| - 1;
    Positions(build[..n], bk, k) + if Keyed(build[n], bk) && build[n][bk].i == k then [n] else []
  }

  ghost predicate IsTable(ht: map<i64, seq<nat>>, build: seq<Row>, bk: nat) {
    forall k: i64 :: (if k in ht then ht[k] else []) == Positions(build, bk, k)
  }

  lemma PositionsSnoc(build: seq<Row>, r: Row, bk: nat, k: i64)
    ensures Positions(build + [r], bk, k) == Positions(build, bk, k) + if Keyed(r, bk) && r[bk].i == k then [|build|] else []
  {
    assert (build + [r])[..|build|] == build;
  }

  lemma TableNext(ht: map<i64, seq<nat>>, build: seq<Row>, r: Row, bk: nat)
    requires IsTable(ht, build, bk)
    ensures !Keyed(r, bk) ==> IsTable(ht, build + [r], bk)
    ensures Keyed(r, bk) ==>
      var k := r[bk].i; IsTable(ht[k := (if k in ht then ht[k] else []) + [|build|]], build + [r], bk)
  {
    hide Positions;
    var ht' := if Keyed(r, bk) then ht[r[bk].i := (if r[bk].i in ht then ht[r[bk].i] else []) + [|build|]] else ht;
    forall k: i64 ensures (if k in ht' then ht'[k] else []) == Positions(build + [r], bk, k) {
      PositionsSnoc(build, r, bk, k);
      assert (if k in ht then ht[k] else []) == Positions(build, bk, k);
    }
  }

  method BuildTable(build: seq<Row>, bk: nat) returns (ht: map<i64, seq<nat>>)
    ensures IsTable(ht, build, bk)
  {
    hide IsTable;
    ht := map[];
    NoTable(bk);
    assert build[..0] == [];
    for i := 0 to |build|
      invariant IsTable(ht, build[..i], bk)
    {
      var r := build[i];
      TableNext(ht, build[..i], r, bk);
      assert build[..i + 1] == build[..i] + [r];
      if Keyed(r, bk) {
        var k := r[bk].i;
        ht := ht[k := (if k in ht then ht[k] else []) + [i]];
      }
    }
    assert build[..|build|] == build;
  }

  lemma NoTable(bk: nat)
    ensures IsTable(map[], [], bk)
  {
  }

  /** The build rows at the positions of a bucket, each with the probe row. */
  function PairsAt(build: seq<Row>, ps: seq<nat>, p: Row): seq<Pair>
    requires forall i :: 0 <= i < |ps| ==> ps[i] < |build|
  {
    if ps == [] then [] else PairsAt(build, ps[..|ps| - 1], p) + [(build[ps[|ps| - 1]], p)]
  }

  lemma {:induction false} PairsAtPrefix(build: seq<Row>, n: nat, ps: seq<nat>, p: Row)
    requires n <= |build| && forall i :: 0 <= i < |ps| ==> ps[i] < n
    ensures PairsAt(build, ps, p) == PairsAt(build[..n], ps, p)
  {
    if ps != [] {
      PairsAtPrefix(build, n, ps[..|ps| - 1], p);
    }
  }

  lemma {:induction false} BucketMatches(build: seq<Row>, bk: nat, p: Row, pk: nat)
    requires Keyed(p, pk)
    ensures PairsAt(build, Positions(build, bk, p[pk].i), p) == MatchesOf(build, p, bk, pk)
  {
    if build != [] {
      var n := |build| - 1;
      var b := build[n];
      BucketMatches(build[..n], bk, p, pk);
      var ps := Positions(build[..n], bk, p[pk].i);
      PairsAtPrefix(build, n, ps, p);
      assert build == build[..n] + [b];
      PositionsSnoc(build[..n], b, bk, p[pk].i);
      assert (ps + [n])[..|ps|] == ps && ps + [] == ps;
    }
  }

  method Emit(build: seq<Row>, ps: seq<nat>, p: Row, pairs: seq<Pair>) returns (r: seq<Pair>)
    requires forall i :: 0 <= i < |ps| ==> ps[i] < |build|
    ensures r == pairs + PairsAt(build, ps, p)
  {
    r := pairs;
    for i := 0 to |ps|
      invariant r == pairs + PairsAt(build, ps[..i], p)
    {
      assert ps[..i + 1][..i] == ps[..i];
      r := r + [(build[ps[i]], p)];
    }
    assert ps[..|ps|] == ps;
  }

  /** Build and probe, as both strategies do it: the nested loop's pairs, in its order. */
  method HashJoin(build: seq<Row>, probe: seq<Row>, bk: nat, pk: nat) returns (pairs: seq<Pair>)
    requires forall i :: 0 <= i < |probe| ==> Keyed(probe[i], pk)
    ensures pairs == NestedLoop(build, probe, bk, pk)
  {
    hide PairsAt, MatchesOf;
    var ht := BuildTable(build, bk);
    pairs := [];
    for i := 0 to |probe|
      invariant pairs == NestedLoop(build, probe[..i], bk, pk)
    {
      var p := probe[i];
      var k := p[pk].i;
      BucketMatches(build, bk, p, pk);
      assert (if k in ht then ht[k] else []) == Positions(build, bk, k);
      assert probe[..i + 1][..i] == probe[..i];
      if k in ht {
        pairs := Emit(build, ht[k], p, pairs);
      } else {
        NoPairs(build, p);
      }
    }
    assert probe[..|probe|] == probe;
  }

  lemma NoPairs(build: seq<Row>, p: Row)
    ensures PairsAt(build, [], p) == []
  {
  }

  // ---- broadcast: one table, probed batch by batch ----

  function BroadcastTasks(build: seq<Row>, batches: seq<seq<Row>>, bk: nat, pk: nat): seq<seq<Pair>> {
    Map((batch: seq<Row>) => NestedLoop(build, batch, bk, pk), batches)
  }

  lemma {:induction false} BroadcastIsNestedLoop(build: seq<Row>, batches: seq<seq<Row>>, bk: nat, pk: nat)
    ensures Flatten(BroadcastTasks(build, batches, bk, pk)) == NestedLoop(build, Flatten(batches), bk, pk)
  {
    hide NestedLoop;
    if batches == [] {
      NoProbe(build, bk, pk);
    } else {
      var n := |batches| - 1;
      BroadcastIsNestedLoop(build, batches[..n], bk, pk);
      NestedLoopConcat(build, Flatten(batches[..n]), batches[n], bk, pk);
    }
  }

  lemma NoProbe(build: seq<Row>, bk: nat, pk: nat)
    ensures NestedLoop(build, [], bk, pk) == []
  {
  }

  // ---- shuffle: both sides partitioned on the key, one join per partition ----

  /** `rem_euclid`: never negative. */
  function PartOf(row: Row, k: nat, n: nat): (p: nat)
    requires n > 0 && Keyed(row, k)
    ensures p < n
  {
    row[k].i % n
  }

  function Bucket(rows: seq<Row>, k: nat, n: nat, p: nat): seq<Row>
    requires n > 0 && forall i :: 0 <= i < |rows| ==> Keyed(rows[i], k)
  {
    if rows == [] then [] else
    var m := |rows| - 1;
    Bucket(rows[..m], k, n, p) + if PartOf(rows[m], k, n) == p then [rows[m]] else []
  }

  lemma {:induction false} BucketCount(rows: seq<Row>, k: nat, n: nat, p: nat, x: Row)
    requires n > 0 && forall i :: 0 <= i < |rows| ==> Keyed(rows[i], k)
    ensures multiset(Bucket(rows, k, n, p))[x]
         == if Keyed(x, k) && PartOf(x, k, n) == p then multiset(rows)[x] else 0
  {
    hide PartOf;
    if rows != [] {
      var m := |rows| - 1;
      BucketCount(rows[..m], k, n, p, x);
      assert rows == rows[..m] + [rows[m]];
    }
  }

  ghost predicate AllKeyed(rows: seq<Row>, k: nat) {
    forall i :: 0 <= i < |rows| ==> Keyed(rows[i], k)
  }

  ghost predicate BatchesKeyed(batches: seq<seq<Row>>, k: nat) {
    forall t :: 0 <= t < |batches| ==> AllKeyed(batches[t], k)
  }

  /** The buckets that the map tasks have for partition `p`, in task order. */
  ghost function Buckets(batches: seq<seq<Row>>, k: nat, n: nat, p: nat): seq<seq<Row>>
    requires n > 0 && BatchesKeyed(batches, k)
  {
    if batches == [] then [] else
    var m := |batches| - 1;
    Buckets(batches[..m], k, n, p) + [Bucket(batches[m], k, n, p)]
  }

  /** Each task adds its bucket to the buffer of each partition once, in whatever order the tasks reach its lock. */
  ghost predicate Deposits(ds: seq<seq<seq<Row>>>, batches: seq<seq<Row>>, k: nat, n: nat)
    requires n > 0 && BatchesKeyed(batches, k)
  {
    |ds| == n && forall p :: 0 <= p < n ==> multiset(ds[p]) == multiset(Buckets(batches, k, n, p))
  }

  lemma {:induction false} BucketsCount(batches: seq<seq<Row>>, k: nat, n: nat, p: nat, x: Row)
    requires n > 0 && BatchesKeyed(batches, k)
    ensures multiset(Flatten(Buckets(batches, k, n, p)))[x]
         == if Keyed(x, k) && PartOf(x, k, n) == p then multiset(Flatten(batches))[x] else 0
  {
    hide PartOf, Bucket;
    if batches != [] {
      var m := |batches| - 1;
      BucketsCount(batches[..m], k, n, p, x);
      assert AllKeyed(batches[m], k);
      BucketCount(batches[m], k, n, p, x);
      var bs := Buckets(batches[..m], k, n, p);
      assert (bs + [Bucket(batches[m], k, n, p)])[..|bs|] == bs;
    }
  }

  lemma BufferCount(ds: seq<seq<seq<Row>>>, batches: seq<seq<Row>>, k: nat, n: nat, p: nat, x: Row)
    requires n > 0 && BatchesKeyed(batches, k) && Deposits(ds, batches, k, n) && p < n
    ensures multiset(Flatten(ds[p]))[x] == if Keyed(x, k) && PartOf(x, k, n) == p then multiset(Flatten(batches))[x] else 0
  {
    hide PartOf, Buckets, Flatten;
    FlattenPermutes(ds[p], Buckets(batches, k, n, p));
    BucketsCount(batches, k, n, p, x);
  }

  /** The map side of the shuffle: rows bucketed by partition. */
  method Partition(rows: seq<Row>, k: nat, n: nat) returns (local: seq<seq<Row>>)
    requires n > 0 && AllKeyed(rows, k)
    ensures |local| == n && forall p :: 0 <= p < n ==> local[p] == Bucket(rows, k, n, p)
  {
    hide PartOf;
    local := seq(n, _ => []);
    for i := 0 to |rows|
      invariant |local| == n && forall p :: 0 <= p < n ==> local[p] == Bucket(rows[..i], k, n, p)
    {
      assert rows[..i + 1][..i] == rows[..i];
      var p := PartOf(rows[i], k, n);
      local := local[p := local[p] + [rows[i]]];
    }
    assert rows[..|rows|] == rows;
  }

  /** Buffer `p` has every row whose key falls into partition `p`, as often as it was scanned, and no other. */
  ghost predicate Partitioned(buffers: seq<seq<Row>>, rows: multiset<Row>, k: nat, n: nat)
    requires n > 0
  {
    && |buffers| == n
    && forall p, x :: 0 <= p < n ==> multiset(buffers[p])[x] == if Keyed(x, k) && PartOf(x, k, n) == p then rows[x] else 0
  }

  ghost function Buffers(ds: seq<seq<seq<Row>>>): (bs: seq<seq<Row>>)
    ensures |bs| == |ds| && forall p :: 0 <= p < |ds| ==> bs[p] == Flatten(ds[p])
  {
    seq(|ds|, p requires 0 <= p < |ds| => Flatten(ds[p]))
  }

  lemma DepositsPartition(ds: seq<seq<seq<Row>>>, batches: seq<seq<Row>>, k: nat, n: nat)
    requires n > 0 && BatchesKeyed(batches, k) && Deposits(ds, batches, k, n)
    ensures Partitioned(Buffers(ds), multiset(Flatten(batches)), k, n)
  {
    hide PartOf, Flatten, BatchesKeyed;
    forall p, x: Row | 0 <= p < n
      ensures multiset(Buffers(ds)[p])[x] == if Keyed(x, k) && PartOf(x, k, n) == p then multiset(Flatten(batches))[x] else 0
    {
      BufferCount(ds, batches, k, n, p, x);
    }
  }

  /** The reduce side: one hash join per partition. */
  ghost function ShuffleTasks(builds: seq<seq<Row>>, probes: seq<seq<Row>>, bk: nat, pk: nat): seq<seq<Pair>>
    requires |builds| == |probes|
  {
    if builds == [] then [] else
    var m := |builds| - 1;
    ShuffleTasks(builds[..m], probes[..m], bk, pk) + [NestedLoop(builds[m], probes[m], bk, pk)]
  }

  lemma SamePart(x: Pair, bk: nat, pk: nat, n: nat)
    requires n > 0 && Matches(x.0, x.1, bk, pk)
    ensures Keyed(x.0, bk) && Keyed(x.1, pk) && PartOf(x.0, bk, n) == PartOf(x.1, pk, n)
  {
  }

  function Product(a: nat, b: nat): nat {
    a * b
  }

  lemma PartCount(build: seq<Row>, probe: seq<Row>, ms: multiset<Row>, mp: multiset<Row>, bk: nat, pk: nat, n: nat, p: nat, x: Pair)
    requires n > 0
    requires multiset(build)[x.0] == if Keyed(x.0, bk) && PartOf(x.0, bk, n) == p then ms[x.0] else 0
    requires multiset(probe)[x.1] == if Keyed(x.1, pk) && PartOf(x.1, pk, n) == p then mp[x.1] else 0
    ensures multiset(NestedLoop(build, probe, bk, pk))[x]
         == if Matches(x.0, x.1, bk, pk) && PartOf(x.1, pk, n) == p then Product(ms[x.0], mp[x.1]) else 0
  {
    hide PartOf, NestedLoop, Matches;
    NestedLoopCount(build, probe, bk, pk, x);
    if Matches(x.0, x.1, bk, pk) {
      SamePart(x, bk, pk, n);
    }
  }

  /** The pairs joined in the first `m` partitions. */
  lemma {:induction false} PartsCount(builds: seq<seq<Row>>, probes: seq<seq<Row>>, ms: multiset<Row>, mp: multiset<Row>,
                                      bk: nat, pk: nat, n: nat, m: nat, x: Pair)
    requires n > 0 && Partitioned(builds, ms, bk, n) && Partitioned(probes, mp, pk, n) && m <= n == |builds| == |probes|
    ensures multiset(Flatten(ShuffleTasks(builds[..m], probes[..m], bk, pk)))[x]
         == if Matches(x.0, x.1, bk, pk) && PartOf(x.1, pk, n) < m then Product(ms[x.0], mp[x.1]) else 0
    decreases m
  {
    hide PartOf, NestedLoop, Matches, Product, Partitioned, ShuffleTasks, Flatten;
    PartitionedSize(builds, ms, bk, n);
    PartitionedSize(probes, mp, pk, n);
    if m == 0 {
      NoParts(builds, probes, bk, pk);
      if Matches(x.0, x.1, bk, pk) {
        SamePart(x, bk, pk, n);
      }
    } else {
      var p := m - 1;
      PartsCount(builds, probes, ms, mp, bk, pk, n, p, x);
      PartitionedAt(builds, ms, bk, n, p, x.0);
      PartitionedAt(probes, mp, pk, n, p, x.1);
      PartCount(builds[p], probes[p], ms, mp, bk, pk, n, p, x);
      PartsSnoc(builds, probes, bk, pk, p);
      if Matches(x.0, x.1, bk, pk) {
        SamePart(x, bk, pk, n);
      }
    }
  }

  lemma PartitionedSize(buffers: seq<seq<Row>>, rows: multiset<Row>, k: nat, n: nat)
    requires n > 0 && Partitioned(buffers, rows, k, n)
    ensures |buffers| == n
  {
  }

  lemma PartitionedAt(buffers: seq<seq<Row>>, rows: multiset<Row>, k: nat, n: nat, p: nat, x: Row)
    requires n > 0 && Partitioned(buffers, rows, k, n) && p < n == |buffers|
    ensures multiset(buffers[p])[x] == if Keyed(x, k) && PartOf(x, k, n) == p then rows[x] else 0
  {
  }

  lemma NoParts(builds: seq<seq<Row>>, probes: seq<seq<Row>>, bk: nat, pk: nat)
    ensures Flatten(ShuffleTasks(builds[..0], probes[..0], bk, pk)) == []
  {
  }

  lemma PartsSnoc(builds: seq<seq<Row>>, probes: seq<seq<Row>>, bk: nat, pk: nat, p: nat)
    requires p < |builds| && p < |probes|
    ensures Flatten(ShuffleTasks(builds[..p + 1], probes[..p + 1], bk, pk))
         == Flatten(ShuffleTasks(builds[..p], probes[..p], bk, pk)) + NestedLoop(builds[p], probes[p], bk, pk)
  {
    hide NestedLoop;
    assert builds[..p + 1][..p] == builds[..p] && probes[..p + 1][..p] == probes[..p];
    FlattenSnoc(ShuffleTasks(builds[..p], probes[..p], bk, pk), NestedLoop(builds[p], probes[p], bk, pk));
  }

  lemma FlattenSnoc<T>(a: seq<seq<T>>, x: seq<T>)
    ensures Flatten(a + [x]) == Flatten(a) + x
  {
    assert (a + [x])[..|a|] == a;
  }

  /** The shuffle join joins what the nested loop joins, as often, for any number of partitions and any order of deposits. */
  lemma ShuffleIsNestedLoop(bds: seq<seq<seq<Row>>>, pds: seq<seq<seq<Row>>>, bb: seq<seq<Row>>, pb: seq<seq<Row>>,
                            bk: nat, pk: nat, n: nat)
    requires n > 0 && BatchesKeyed(bb, bk) && BatchesKeyed(pb, pk) && Deposits(bds, bb, bk, n) && Deposits(pds, pb, pk, n)
    ensures multiset(Flatten(ShuffleTasks(Buffers(bds), Buffers(pds), bk, pk))) == multiset(NestedLoop(Flatten(bb), Flatten(pb), bk, pk))
  {
    DepositsPartition(bds, bb, bk, n);
    DepositsPartition(pds, pb, pk, n);
    PartitionedIsNestedLoop(Buffers(bds), Buffers(pds), Flatten(bb), Flatten(pb), bk, pk, n);
  }

  lemma PartitionedIsNestedLoop(builds: seq<seq<Row>>, probes: seq<seq<Row>>, build: seq<Row>, probe: seq<Row>, bk: nat, pk: nat, n: nat)
    requires n > 0 && Partitioned(builds, multiset(build), bk, n) && Partitioned(probes, multiset(probe), pk, n)
    ensures multiset(Flatten(ShuffleTasks(builds, probes, bk, pk))) == multiset(NestedLoop(build, probe, bk, pk))
  {
    hide NestedLoop, ShuffleTasks, Matches, Flatten;
    var l, r := multiset(Flatten(ShuffleTasks(builds, probes, bk, pk))), multiset(NestedLoop(build, probe, bk, pk));
    forall x: Pair ensures l[x] == r[x] {
      PartsCount(builds, probes, multiset(build), multiset(probe), bk, pk, n, n, x);
      NestedLoopCount(build, probe, bk, pk, x);
      assert builds[..n] == builds && probes[..n] == probes;
      if Matches(x.0, x.1, bk, pk) {
        SamePart(x, bk, pk, n);
      }
    }
    assert l == r;
  }

  // ---- either side can be the build side ----

  function Swap(x: Pair): Pair {
    (x.1, x.0)
  }

  lemma {:induction false} SwapCount(xs: seq<Pair>, x: Pair)
    ensures multiset(Map(Swap, xs))[x] == multiset(xs)[Swap(x)]
  {
    if xs != [] {
      var n := |xs| - 1;
      SwapCount(xs[..n], x);
      assert xs == xs[..n] + [xs[n]];
    }
  }

  lemma EitherBuildSide(left: seq<Row>, right: seq<Row>, lk: nat, rk: nat)
    ensures multiset(Map(Swap, NestedLoop(right, left, rk, lk))) == multiset(NestedLoop(left, right, lk, rk))
  {
    hide NestedLoop, Map;
    var l, r := multiset(Map(Swap, NestedLoop(right, left, rk, lk))), multiset(NestedLoop(left, right, lk, rk));
    forall x: Pair ensures l[x] == r[x] {
      SwapCount(NestedLoop(right, left, rk, lk), x);
      NestedLoopCount(right, left, rk, lk, Swap(x));
      NestedLoopCount(left, right, lk, rk, x);
    }
    assert l == r;
  }
}
