/** The vector kernels, each against a row-at-a-time fold. */
module Kernels {
  import opened Wrappers
  import opened Bytes
  import opened BlitzChunks
  import opened BlitzReader
  import opened Permutations
  import A = Aggregate

  const FLAT_SLOTS: nat := 4096
  const SAMPLE: nat := 1024

  datatype Acc = Acc(sum: i64, count: nat, min: i64, max: i64)

  const EMPTY: Acc := Acc(0, 0, I64_MAX, I64_MIN)

  function Push(a: Acc, v: i64): Acc {
    Acc(Wrap64(a.sum + v), a.count + 1, MinI(a.min, v), MaxI(a.max, v))
  }

  function Merge(a: Acc, o: Acc): Acc {
    Acc(Wrap64(a.sum + o.sum), a.count + o.count, MinI(a.min, o.min), MaxI(a.max, o.max))
  }

  /** One row after another. */
  function FoldAcc(vals: seq<i64>): Acc {
    if vals == [] then EMPTY else Push(FoldAcc(vals[..|vals| - 1]), vals[|vals| - 1])
  }

  type Groups = map<i64, Acc>

  function PushKey(g: Groups, k: i64, v: i64): Groups {
    g[k := Push(if k in g then g[k] else EMPTY, v)]
  }

  /** One (key, value) row after another. */
  function FoldGroups(rows: seq<(i64, i64)>): Groups {
    if rows == [] then map[] else
    var n := |rows| - 1;
    PushKey(FoldGroups(rows[..n]), rows[n].0, rows[n].1)
  }

  /** An accumulator's meaning: the wrapped sum, the number of values, their exact extremes. */
  lemma {:induction false} FoldAccMeans(vals: seq<i64>)
    ensures var a := FoldAcc(vals);
            a.sum == Wrap64(A.SumOf(vals)) && a.count == |vals| && Zone(vals, a.min, a.max)
  {
    if vals != [] {
      var n := |vals| - 1;
      FoldAccMeans(vals[..n]);
      WrapAbsorbs(A.SumOf(vals[..n]), vals[n]);
      A.OneZone(vals[n]);
      ZoneConcat(vals[..n], [vals[n]], FoldAcc(vals[..n]).min, FoldAcc(vals[..n]).max, vals[n], vals[n]);
      assert vals == vals[..n] + [vals[n]];
    }
  }

  /** That meaning fixes the accumulator. */
  lemma MeansFoldAcc(vals: seq<i64>, a: Acc)
    requires a.sum == Wrap64(A.SumOf(vals)) && a.count == |vals| && Zone(vals, a.min, a.max)
    ensures a == FoldAcc(vals)
  {
    FoldAccMeans(vals);
  }

  // ---- filter_i64 ----

  /** The branch-free filter: every index is stored, and the cursor moves past it when it qualifies. */
  method FilterI64(data: seq<i64>, op: Op, lit: i64) returns (sel: seq<nat>)
    ensures sel == Matching(Ints(data), op, Int(lit), |data|)
  {
    var out := new nat[|data|](_ => 0);
    var k: nat := 0;
    for i := 0 to |data|
      invariant k <= i && out[..k] == Matching(Ints(data), op, Int(lit), i)
    {
      var m := if Hit(data[i], op, lit) then 1 else 0;
      out[k] := i;
      assert out[..k + 1] == out[..k] + [i];
      k := k + m;
    }
    sel := out[..k];
  }

  // ---- sum_i64 ----

  lemma {:induction false} LaneAdded(lanes: seq<i64>, j: nat, v: i64)
    requires j < |lanes|
    ensures Wrap64(A.SumOf(lanes[j := Wrap64(lanes[j] + v)])) == Wrap64(A.SumOf(lanes) + v)
    decreases |lanes|
  {
    var n := |lanes| - 1;
    var after := lanes[j := Wrap64(lanes[j] + v)];
    if j == n {
      assert after[..n] == lanes[..n];
      WrapAbsorbs(A.SumOf(lanes[..n]), lanes[n] + v);
      assert A.SumOf(lanes[..n]) + (lanes[n] + v) == A.SumOf(lanes) + v;
    } else {
      LaneAdded(lanes[..n], j, v);
      assert after[..n] == lanes[..n][j := Wrap64(lanes[j] + v)];
      WrapAbsorbs(A.SumOf(after[..n]), lanes[n]);
      WrapAbsorbs(A.SumOf(lanes[..n]) + v, lanes[n]);
      assert A.SumOf(lanes[..n]) + v + lanes[n] == A.SumOf(lanes) + v;
    }
  }

  lemma SumSnoc(data: seq<i64>, i: nat)
    requires i < |data|
    ensures A.SumOf(data[..i + 1]) == A.SumOf(data[..i]) + data[i]
    ensures forall mn, mx :: Zone(data[..i], mn, mx) ==> Zone(data[..i + 1], MinI(mn, data[i]), MaxI(mx, data[i]))
  {
    assert data[..i + 1][..i] == data[..i];
    forall mn, mx | Zone(data[..i], mn, mx) ensures Zone(data[..i + 1], MinI(mn, data[i]), MaxI(mx, data[i])) {
      A.OneZone(data[i]);
      ZoneConcat(data[..i], [data[i]], mn, mx, data[i], data[i]);
      assert data[..i + 1] == data[..i] + [data[i]];
    }
  }

  /** Eight independent lanes over chunks of eight, then the remainder. */
  method SumI64(data: seq<i64>) returns (acc: Acc)
    ensures acc == FoldAcc(data)
  {
    hide Zone, A.SumOf, Wrap64, MinI, MaxI;
    var lanes := new i64[8](_ => 0);
    var min, max := I64_MAX, I64_MIN;
    var whole := |data| / 8;
    NoLanes(lanes[..], data);
    for c := 0 to whole
      invariant 8 * c <= |data|
      invariant Wrap64(A.SumOf(lanes[..])) == Wrap64(A.SumOf(data[..8 * c])) && Zone(data[..8 * c], min, max)
    {
      for j := 0 to 8
        invariant Wrap64(A.SumOf(lanes[..])) == Wrap64(A.SumOf(data[..8 * c + j])) && Zone(data[..8 * c + j], min, max)
      {
        var v := data[8 * c + j];
        LaneAdded(lanes[..], j, v);
        SumSnoc(data, 8 * c + j);
        WrapAbsorbs(A.SumOf(lanes[..]), v);
        WrapAbsorbs(A.SumOf(data[..8 * c + j]), v);
        ghost var before := lanes[..];
        lanes[j] := Wrap64(lanes[j] + v);
        assert lanes[..] == before[j := Wrap64(before[j] + v)];
        min, max := MinI(min, v), MaxI(max, v);
      }
    }
    var sum := FoldLanes(lanes[..]);
    acc := Acc(sum, |data|, min, max);
    for i := 8 * whole to |data|
      invariant acc.sum == Wrap64(A.SumOf(data[..i])) && acc.count == |data| && Zone(data[..i], acc.min, acc.max)
    {
      SumSnoc(data, i);
      WrapAbsorbs(A.SumOf(data[..i]), data[i]);
      acc := acc.(sum := Wrap64(acc.sum + data[i]), min := MinI(acc.min, data[i]), max := MaxI(acc.max, data[i]));
    }
    assert data[..|data|] == data;
    if data == [] {
      acc := acc.(min := I64_MAX, max := I64_MIN);
      NoZone(data);
    }
    MeansFoldAcc(data, acc);
  }

  lemma NoLanes(lanes: seq<i64>, data: seq<i64>)
    requires forall i :: 0 <= i < |lanes| ==> lanes[i] == 0
    ensures A.SumOf(lanes) == A.SumOf(data[..0]) && Zone(data[..0], I64_MAX, I64_MIN)
  {
    ZeroSum(lanes);
  }

  lemma {:induction false} ZeroSum(z: seq<i64>)
    requires forall i :: 0 <= i < |z| ==> z[i] == 0
    ensures A.SumOf(z) == 0
  {
    if z != [] {
      ZeroSum(z[..|z| - 1]);
    }
  }

  lemma NoZone(data: seq<i64>)
    requires data == []
    ensures Zone(data, I64_MAX, I64_MIN)
  {
  }

  method FoldLanes(lanes: seq<i64>) returns (sum: i64)
    ensures sum == Wrap64(A.SumOf(lanes))
  {
    sum := 0;
    for j := 0 to |lanes|
      invariant sum == Wrap64(A.SumOf(lanes[..j]))
    {
      SumSnoc(lanes, j);
      WrapAbsorbs(A.SumOf(lanes[..j]), lanes[j]);
      sum := Wrap64(sum + lanes[j]);
    }
    assert lanes[..|lanes|] == lanes;
  }

  // ---- sum_i64_sel ----

  lemma {:induction false} PickMore<T>(xs: seq<T>, sel: seq<nat>, x: nat)
    requires x < |xs| && forall k :: 0 <= k < |sel| ==> sel[k] < |xs|
    ensures Pick(xs, sel + [x]) == Pick(xs, sel) + [xs[x]]
    decreases |sel|
  {
    if sel == [] {
      assert [x][1..] == [];
    } else {
      PickMore(xs, sel[1..], x);
      assert (sel + [x])[1..] == sel[1..] + [x];
    }
  }

  /** Aggregating through a selection vector is aggregating the selected values. */
  method SumI64Sel(data: seq<i64>, sel: seq<nat>) returns (acc: Acc)
    requires forall k :: 0 <= k < |sel| ==> sel[k] < |data|
    ensures acc == FoldAcc(Pick(data, sel))
  {
    hide Pick, Push;
    acc := EMPTY;
    NothingPicked(data);
    assert sel[..0] == [];
    for i := 0 to |sel|
      invariant acc == FoldAcc(Pick(data, sel[..i]))
    {
      PickMore(data, sel[..i], sel[i]);
      assert sel[..i + 1] == sel[..i] + [sel[i]];
      var before := Pick(data, sel[..i]);
      assert (before + [data[sel[i]]])[..|before|] == before;
      acc := Push(acc, data[sel[i]]);
    }
    assert sel[..|sel|] == sel;
  }

  lemma NothingPicked(data: seq<i64>)
    ensures Pick(data, []) == [] && FoldAcc([]) == EMPTY
  {
  }

  // ---- group_agg ----

  function Rows2(keys: seq<i64>, vals: seq<i64>, sel: seq<nat>): (rows: seq<(i64, i64)>)
    requires |keys| <= |vals| && forall i :: 0 <= i < |sel| ==> sel[i] < |keys|
    ensures |rows| == |sel| && forall i :: 0 <= i < |sel| ==> rows[i] == (keys[sel[i]], vals[sel[i]])
  {
    seq(|sel|, i requires 0 <= i < |sel| => (keys[sel[i]], vals[sel[i]]))
  }

  /** The flat table holds the groups of the rows so far; a slot not seen has no group. */
  ghost predicate Flat(table: seq<Acc>, seen: seq<bool>, g: Groups) {
    && |table| == |seen| == FLAT_SLOTS
    && (forall k :: k in g ==> 0 <= k < FLAT_SLOTS)
    && forall s :: 0 <= s < FLAT_SLOTS ==>
         (seen[s] <==> s in g) && table[s] == if s in g then g[s] else EMPTY
  }

  lemma FoldGroupsSnoc(rows: seq<(i64, i64)>, i: nat)
    requires i < |rows|
    ensures FoldGroups(rows[..i + 1]) == PushKey(FoldGroups(rows[..i]), rows[i].0, rows[i].1)
  {
    assert rows[..i + 1][..i] == rows[..i];
  }

  lemma FlatPush(table: seq<Acc>, seen: seq<bool>, g: Groups, k: i64, v: i64)
    requires Flat(table, seen, g) && InTable(k)
    ensures Flat(table[k := Push(table[k], v)], seen[k := true], PushKey(g, k, v))
  {
    hide Push;
  }

  predicate InTable(k: i64) {
    0 <= k < FLAT_SLOTS
  }

  /** The fast path over the rows; `None` when a key outside the table makes it give up. */
  method FlatPath(rows: seq<(i64, i64)>) returns (r: Option<Groups>)
    ensures r.Some? <==> forall i :: 0 <= i < |rows| ==> 0 <= rows[i].0 < 4096
    ensures r.Some? ==> r.value == FoldGroups(rows)
  {
    hide Push, Flat, FoldGroups;
    var table := new Acc[FLAT_SLOTS](_ => EMPTY);
    var seen := new bool[FLAT_SLOTS](_ => false);
    NoFlat(table[..], seen[..], rows);
    for i := 0 to |rows|
      invariant Flat(table[..], seen[..], FoldGroups(rows[..i])) && forall j :: 0 <= j < i ==> InTable(rows[j].0)
    {
      var (k, v) := rows[i];
      if !InTable(k) {
        return None;
      }
      FlatPush(table[..], seen[..], FoldGroups(rows[..i]), k, v);
      FoldGroupsSnoc(rows, i);
      ghost var before, beforeSeen := table[..], seen[..];
      table[k] := Push(table[k], v);
      seen[k] := true;
      assert table[..] == before[k := Push(before[k], v)] && seen[..] == beforeSeen[k := true];
    }
    assert rows[..|rows|] == rows;
    var out := Collect(table[..], seen[..], FoldGroups(rows));
    r := Some(out);
  }

  lemma NoFlat(table: seq<Acc>, seen: seq<bool>, rows: seq<(i64, i64)>)
    requires |table| == |seen| == FLAT_SLOTS && forall s :: 0 <= s < FLAT_SLOTS ==> table[s] == EMPTY && !seen[s]
    ensures Flat(table, seen, FoldGroups(rows[..0])) && FoldGroups(rows[..0]) == map[]
  {
  }

  /** The groups of the slots that were seen. */
  method Collect(table: seq<Acc>, seen: seq<bool>, ghost g: Groups) returns (out: Groups)
    requires Flat(table, seen, g)
    ensures out == g
  {
    out := map[];
    for k := 0 to FLAT_SLOTS
      invariant forall s :: s in out <==> s in g && s < k
      invariant forall s :: s in out ==> out[s] == g[s]
    {
      if seen[k] {
        var key: i64 := k;
        out := out[key := table[k]];
      }
    }
  }

  method HashPath(rows: seq<(i64, i64)>) returns (out: Groups)
    ensures out == FoldGroups(rows)
  {
    hide Push;
    out := map[];
    for i := 0 to |rows|
      invariant out == FoldGroups(rows[..i])
    {
      FoldGroupsSnoc(rows, i);
      var (k, v) := rows[i];
      out := out[k := Push(if k in out then out[k] else EMPTY, v)];
    }
    assert rows[..|rows|] == rows;
  }

  /** Whether the keys of a sample leave the flat table open; no keys leave it open. */
  method SampleFits(keys: seq<i64>) returns (ok: bool)
    ensures ok <==> forall i :: 0 <= i < |keys| && i < 1024 ==> 0 <= keys[i] < 4096
  {
    var lo: i64, hi: i64 := I64_MAX, I64_MIN;
    for i := 0 to if |keys| < SAMPLE then |keys| else SAMPLE
      invariant forall j :: 0 <= j < i ==> lo <= keys[j] <= hi
      invariant lo == I64_MAX || exists j :: 0 <= j < i && keys[j] == lo
      invariant hi == I64_MIN || exists j :: 0 <= j < i && keys[j] == hi
    {
      lo, hi := MinI(lo, keys[i]), MaxI(hi, keys[i]);
    }
    ok := lo >= 0 && hi < FLAT_SLOTS;
  }

  /** `group_agg`: flat table, abandoned flat table or hash map, the groups are those of the row-at-a-time fold. */
  method GroupAgg(keys: seq<i64>, vals: seq<i64>, sel: Option<seq<nat>>) returns (out: Groups)
    requires |keys| <= |vals|
    requires sel.Some? ==> forall i :: 0 <= i < |sel.value| ==> sel.value[i] < |keys|
    ensures out == FoldGroups(Rows2(keys, vals, if sel.Some? then sel.value else Range(|keys|)))
  {
    hide FoldGroups;
    var rows := Rows2(keys, vals, if sel.Some? then sel.value else Range(|keys|));
    var flatOk := SampleFits(keys);
    if flatOk {
      var fast := FlatPath(rows);
      if fast.Some? {
        return fast.value;
      }
    }
    out := HashPath(rows);
  }
}
