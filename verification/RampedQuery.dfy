/** A ramped query over a table. */
module RampedQuery {
  /* The answer does not depend on the ramp; ORDER BY and LIMIT on its groups. */

  import opened Wrappers
  import opened Bytes
  import opened Permutations
  import opened Morsels
  import opened Kernels
  import C = Cluster
  import E = Executor

  /** When the counter reaches the number of morsels, the result is the answer over all rows of the table,
      whatever the number of local threads, the steals, the late joins and the deaths. */
  lemma RampedAnswer(blocks: seq<Block>, zones: seq<seq<C.ZoneMap>>, q: Query, n: nat, localThreads: nat, steps: seq<E.Step>)
    requires C.GoodBlocks(blocks, n) && C.Names(q, n) && C.ExactZones(blocks, zones)
    requires E.IsRun(C.Exec(blocks, q), E.Init(C.PrunedTo(zones, q.filter, |blocks|), localThreads), steps)
    requires var s := E.Exec(C.Exec(blocks, q), E.Init(C.PrunedTo(zones, q.filter, |blocks|), localThreads), steps);
             s.done >= |C.PrunedTo(zones, q.filter, |blocks|)|
    ensures E.Exec(C.Exec(blocks, q), E.Init(C.PrunedTo(zones, q.filter, |blocks|), localThreads), steps).result
         == OfRows(C.AllRows(blocks), q)
  {
    hide OfRows, C.AllRows, E.IsRun, E.Exec, C.PrunedTo, C.ExactZone, Total, Map;
    E.ExactlyOnce(C.Exec(blocks, q), C.PrunedTo(zones, q.filter, |blocks|), localThreads, steps);
    C.SameAnswer(blocks, zones, blocks, zones, q, n);
  }

  predicate Comes(a: i64, b: i64, asc: bool) {
    if asc then a < b else b < a
  }

  /** Rising, or falling. */
  ghost predicate InOrder(keys: seq<i64>, asc: bool) {
    forall i, j :: 0 <= i < j < |keys| ==> if asc then keys[i] < keys[j] else keys[i] > keys[j]
  }

  lemma KeyInserted(keys: seq<i64>, k: i64, p: nat, asc: bool)
    requires InOrder(keys, asc) && p <= |keys|
    requires forall i :: 0 <= i < |keys| ==> if i < p then Comes(keys[i], k, asc) else Comes(k, keys[i], asc)
    ensures InOrder(keys[..p] + [k] + keys[p..], asc)
  {
    var r := keys[..p] + [k] + keys[p..];
    forall i | 0 <= i < |r| ensures r[i] == if i < p then keys[i] else if i == p then k else keys[i - 1] {
    }
  }

  method PlaceForKey(keys: seq<i64>, k: i64, asc: bool) returns (p: nat)
    requires InOrder(keys, asc) && k !in keys
    ensures p <= |keys|
    ensures forall i :: 0 <= i < |keys| ==> if i < p then Comes(keys[i], k, asc) else Comes(k, keys[i], asc)
  {
    p := 0;
    while p < |keys| && Comes(keys[p], k, asc)
      invariant p <= |keys| && forall i :: 0 <= i < p ==> Comes(keys[i], k, asc)
    {
      p := p + 1;
    }
    if p < |keys| {
      assert keys[p] in keys;
    }
  }

  method SortKeys(groups: Groups, asc: bool) returns (keys: seq<i64>)
    ensures InOrder(keys, asc) && forall k :: k in keys <==> k in groups
  {
    keys := [];
    var todo := groups.Keys;
    while todo != {}
      invariant todo <= groups.Keys && InOrder(keys, asc)
      invariant forall k :: k in keys <==> k in groups && k !in todo
      decreases |todo|
    {
      var k :| k in todo;
      var p := PlaceForKey(keys, k, asc);
      KeyInserted(keys, k, p, asc);
      assert keys == keys[..p] + keys[p..];
      keys := keys[..p] + [k] + keys[p..];
      todo := todo - {k};
    }
  }

  /** The groups of the first keys, in the order asked for; all of them when there is no limit. */
  ghost predicate FirstGroups(r: Groups, groups: Groups, asc: bool, limit: Option<nat>) {
    && (forall k :: k in r ==> k in groups && r[k] == groups[k])
    && (forall k, l :: k in r && l in groups && l !in r ==> if asc then k < l else k > l)
    && |r| == (if limit.Some? && limit.value < |groups| then limit.value else |groups|)
  }

  /** The groups of some keys. */
  function GroupsOf(groups: Groups, keys: seq<i64>): Groups
    requires forall k :: k in keys ==> k in groups
  {
    map k | k in keys :: groups[k]
  }

  method CollectGroups(groups: Groups, keys: seq<i64>) returns (r: Groups)
    requires forall k :: k in keys ==> k in groups
    ensures r == GroupsOf(groups, keys)
  {
    r := map[];
    for i := 0 to |keys|
      invariant r == GroupsOf(groups, keys[..i])
    {
      assert keys[..i + 1] == keys[..i] + [keys[i]];
      r := r[keys[i] := groups[keys[i]]];
    }
    assert keys[..|keys|] == keys;
  }

  /** A prefix of the sorted keys comes before the rest of them. */
  lemma PrefixFirst(keys: seq<i64>, n: nat, asc: bool, k: i64, l: i64)
    requires InOrder(keys, asc) && n <= |keys| && k in keys[..n] && l in keys && l !in keys[..n]
    ensures if asc then k < l else k > l
  {
    var i :| 0 <= i < n && keys[..n][i] == k;
    assert keys == keys[..n] + keys[n..];
    var j :| 0 <= j < |keys[n..]| && keys[n..][j] == l;
    assert keys[n + j] == l;
  }

  lemma PrefixCount(groups: Groups, keys: seq<i64>, n: nat, asc: bool)
    requires InOrder(keys, asc) && n <= |keys| && forall k :: k in keys ==> k in groups
    ensures |GroupsOf(groups, keys[..n])| == n
  {
    var r := GroupsOf(groups, keys[..n]);
    KeysCount(keys[..n], r.Keys, asc);
  }

  /** `apply_order_limit` with an ORDER BY. */
  method OrderedGroups(groups: Groups, asc: bool, limit: Option<nat>) returns (r: Groups)
    ensures FirstGroups(r, groups, asc, limit)
  {
    hide InOrder;
    var keys := SortKeys(groups, asc);
    KeysCount(keys, groups.Keys, asc);
    var n := if limit.Some? && limit.value < |keys| then limit.value else |keys|;
    PrefixCount(groups, keys, n, asc);
    assert forall k :: k in keys[..n] ==> k in keys;
    r := CollectGroups(groups, keys[..n]);
    forall k, l | k in r && l in groups && l !in r ensures if asc then k < l else k > l {
      PrefixFirst(keys, n, asc, k, l);
    }
  }

  lemma Later(keys: seq<i64>, i: nat, asc: bool)
    requires InOrder(keys, asc) && i < |keys|
    ensures keys[i] !in keys[..i]
  {
    forall j | 0 <= j < i ensures keys[..i][j] != keys[i] {
      assert if asc then keys[j] < keys[i] else keys[j] > keys[i];
    }
  }

  lemma {:induction false} KeysCount(keys: seq<i64>, s: set<i64>, asc: bool)
    requires InOrder(keys, asc) && forall k :: k in keys <==> k in s
    ensures |keys| == |s|
    decreases |keys|
  {
    if keys == [] {
      assert s == {};
    } else {
      var n := |keys| - 1;
      Later(keys, n, asc);
      assert keys == keys[..n] + [keys[n]];
      KeysCount(keys[..n], s - {keys[n]}, asc);
    }
  }
}
