/** Scanning one row group. */
module LateScan {
  /* Predicates first, then only the selected rows of the projected columns. */

  import opened Wrappers
  import opened Bytes
  import opened Cursor
  import opened BlitzFooter
  import opened BlitzChunks
  import opened BlitzReader
  import opened Permutations

  datatype Cell = I(i: i64) | S(s: Text)

  datatype Pred = Pred(col: nat, op: Op, lit: Literal)

  datatype ScanResult = Panic | Nothing | Batch(cols: seq<Column>, rows: nat)

  // ---- what a scan means: decode everything, filter, project ----

  function CellAt(col: Column, i: nat): Cell
    requires i < Rows(col)
  {
    match col
    case Ints(vals) => I(vals[i])
    case Texts(strs) => S(strs[i])
  }

  /** The columns of a row group all have `n` rows. */
  ghost predicate Table(group: seq<Column>, n: nat) {
    forall c :: 0 <= c < |group| ==> Rows(group[c]) == n
  }

  /** The predicates name columns of the table and compare them with literals of their type. */
  ghost predicate Typed(group: seq<Column>, preds: seq<Pred>) {
    forall p :: p in preds ==> p.col < |group| && Comparable(TypeOf(group[p.col]), p.op, p.lit)
  }

  ghost predicate Keeps(group: seq<Column>, preds: seq<Pred>, n: nat, i: nat)
    requires Table(group, n) && Typed(group, preds) && i < n
  {
    forall p :: p in preds ==> RowMatches(group[p.col], p.op, p.lit, i)
  }

  ghost function Kept(group: seq<Column>, preds: seq<Pred>, n: nat, k: nat): (sel: seq<nat>)
    requires Table(group, n) && Typed(group, preds) && k <= n
    ensures forall i :: 0 <= i < |sel| ==> sel[i] < k
  {
    if k == 0 then [] else Kept(group, preds, n, k - 1) + if Keeps(group, preds, n, k - 1) then [k - 1] else []
  }

  function RowOf(group: seq<Column>, cols: seq<nat>, n: nat, i: nat): (row: seq<Cell>)
    requires Table(group, n) && i < n && forall j :: 0 <= j < |cols| ==> cols[j] < |group|
    ensures |row| == |cols| && forall j :: 0 <= j < |cols| ==> row[j] == CellAt(group[cols[j]], i)
  {
    if cols == [] then [] else [CellAt(group[cols[0]], i)] + RowOf(group, cols[1..], n, i)
  }

  /** The rows of the table that satisfy every predicate, projected, in row order. */
  ghost function FilteredRows(group: seq<Column>, preds: seq<Pred>, cols: seq<nat>, n: nat, k: nat): seq<seq<Cell>>
    requires Table(group, n) && Typed(group, preds) && k <= n && forall j :: 0 <= j < |cols| ==> cols[j] < |group|
  {
    if k == 0 then [] else
    FilteredRows(group, preds, cols, n, k - 1) + if Keeps(group, preds, n, k - 1) then [RowOf(group, cols, n, k - 1)] else []
  }

  /** The rows a batch hands on, as the scan loops of `execute` take them apart. */
  ghost function BatchRows(cols: seq<Column>, k: nat): seq<seq<Cell>>
    requires forall c :: 0 <= c < |cols| ==> k <= Rows(cols[c])
  {
    if k == 0 then [] else BatchRows(cols, k - 1) + [seq(|cols|, c requires 0 <= c < |cols| => CellAt(cols[c], k - 1))]
  }

  ghost function ResultRows(r: ScanResult): seq<seq<Cell>>
    requires r.Batch? ==> forall c :: 0 <= c < |r.cols| ==> r.rows <= Rows(r.cols[c])
  {
    if r.Batch? then BatchRows(r.cols, r.rows) else []
  }

  // ---- selection vectors ----

  lemma {:induction false} KeptExact(group: seq<Column>, preds: seq<Pred>, n: nat, k: nat)
    requires Table(group, n) && Typed(group, preds) && k <= n
    ensures var sel := Kept(group, preds, n, k);
            && Increasing(sel)
            && (forall i :: i in sel ==> i < k)
            && forall i: nat :: i < k ==> (i in sel <==> Keeps(group, preds, n, i))
  {
    hide Keeps, Table, Typed;
    if k > 0 {
      KeptExact(group, preds, n, k - 1);
    }
  }

  /** A strictly increasing vector is determined by the set of its entries. */
  lemma {:induction false} SortedUnique(a: seq<nat>, b: seq<nat>)
    requires Increasing(a) && Increasing(b) && forall x :: x in a <==> x in b
    ensures a == b
    decreases |a|
  {
    HasMember(a);
    HasMember(b);
    if a != [] {
      assert a[0] in b && b[0] in a;
      FirstIsLeast(a, b[0]);
      FirstIsLeast(b, a[0]);
      forall x ensures x in a[1..] <==> x in b[1..] {
        TailMembers(a, x);
        TailMembers(b, x);
      }
      SortedUnique(a[1..], b[1..]);
      assert a == [a[0]] + a[1..] && b == [b[0]] + b[1..];
    }
  }

  lemma HasMember(a: seq<nat>)
    ensures a != [] ==> exists x :: x in a
  {
    if a != [] {
      assert a[0] in a;
    }
  }

  lemma FirstIsLeast(a: seq<nat>, x: nat)
    requires Increasing(a) && x in a
    ensures a[0] <= x
  {
  }

  lemma TailMembers(a: seq<nat>, x: nat)
    requires Increasing(a) && a != []
    ensures x in a[1..] <==> x in a && x != a[0]
  {
    assert a == [a[0]] + a[1..];
  }

  /** `intersect_sorted`: two cursors, moved by comparing what they point at. */
  method IntersectSorted(a: seq<nat>, b: seq<nat>) returns (out: seq<nat>)
    ensures Increasing(a) && Increasing(b) ==> Increasing(out) && forall x :: x in out <==> x in a && x in b
  {
    ghost var sorted := Increasing(a) && Increasing(b);
    out := [];
    var i, j := 0, 0;
    while i < |a| && j < |b|
      invariant i <= |a| && j <= |b|
      invariant sorted ==> Increasing(out)
      invariant sorted ==> forall x :: x in out <==> x in a[..i] && x in b[..j]
      invariant sorted && i < |a| ==> forall x :: x in b[..j] ==> x < a[i]
      invariant sorted && j < |b| ==> forall x :: x in a[..i] ==> x < b[j]
      decreases |a| - i + |b| - j
    {
      assert a[..i + 1] == a[..i] + [a[i]] && b[..j + 1] == b[..j] + [b[j]];
      if a[i] < b[j] {
        i := i + 1;
      } else if a[i] > b[j] {
        j := j + 1;
      } else {
        if sorted {
          StillIncreasing(out, a[..i], b[..j], a[i]);
        }
        out := out + [a[i]];
        i, j := i + 1, j + 1;
      }
    }
    if sorted {
      Exhausted(a, b, i, j);
    }
  }

  lemma StillIncreasing(out: seq<nat>, a: seq<nat>, b: seq<nat>, x: nat)
    requires Increasing(out) && (forall y :: y in out ==> y in a && y in b) && forall y :: y in a ==> y < x
    ensures Increasing(out + [x])
  {
    forall i | 0 <= i < |out| ensures out[i] < x {
      assert out[i] in out;
    }
  }

  /** What is left of one vector lies above everything the other one had. */
  lemma Exhausted(a: seq<nat>, b: seq<nat>, i: nat, j: nat)
    requires Increasing(a) && Increasing(b) && i <= |a| && j <= |b| && (i == |a| || j == |b|)
    requires i < |a| ==> forall x :: x in b[..j] ==> x < a[i]
    requires j < |b| ==> forall x :: x in a[..i] ==> x < b[j]
    ensures forall x :: x in a && x in b ==> x in a[..i] && x in b[..j]
  {
    forall x | x in a && x in b ensures x in a[..i] && x in b[..j] {
      var m :| 0 <= m < |a| && a[m] == x;
      var k :| 0 <= k < |b| && b[k] == x;
      if i == |a| {
        assert x in a[..i];
        assert j < |b| ==> k < j;
        assert b[..j][k] == x;
      } else {
        assert x in b[..j];
        assert m < i;
        assert a[..i][m] == x;
      }
    }
  }

  // ---- scan_rowgroup ----

  /** Every chunk of the row group holds its column, and the columns form a table. */
  ghost predicate Scannable(file: seq<byte>, rg: RowGroupMeta, group: seq<Column>) {
    && rg.rows < TWO_32 && |rg.chunks| == |group| && Table(group, rg.rows)
    && forall c :: 0 <= c < |group| ==> ChunkHolds(file, rg.chunks[c], group[c])
  }

  ghost predicate ScanArgs(file: seq<byte>, rg: RowGroupMeta, group: seq<Column>, preds: seq<Pred>, cols: seq<nat>) {
    && Scannable(file, rg, group) && Typed(group, preds)
    && forall j :: 0 <= j < |cols| ==> cols[j] < |group|
  }

  lemma PredMatches(group: seq<Column>, preds: seq<Pred>, n: nat, k: nat)
    requires Table(group, n) && Typed(group, preds) && k < |preds|
    ensures var p := preds[k];
            && p.col < |group| && Comparable(TypeOf(group[p.col]), p.op, p.lit)
            && Typed(group, preds[..k]) && Typed(group, preds[..k + 1]) && Rows(group[p.col]) == n
            && forall i: nat :: i < n ==>
                (Keeps(group, preds[..k + 1], n, i) <==> Keeps(group, preds[..k], n, i) && RowMatches(group[p.col], p.op, p.lit, i))
  {
    hide RowMatches;
    assert preds[..k + 1] == preds[..k] + [preds[k]];
  }

  /** The selection after one more predicate is the intersection with that predicate's own rows. */
  lemma KeptNext(group: seq<Column>, preds: seq<Pred>, n: nat, k: nat, sel: seq<nat>)
    requires Table(group, n) && Typed(group, preds) && k < |preds|
    requires Typed(group, preds[..k]) && Typed(group, preds[..k + 1])
    requires preds[k].col < |group| && Rows(group[preds[k].col]) == n
    requires Comparable(TypeOf(group[preds[k].col]), preds[k].op, preds[k].lit)
    requires Increasing(sel)
    requires forall x :: x in sel <==> x in Kept(group, preds[..k], n, n) && x in Matching(group[preds[k].col], preds[k].op, preds[k].lit, n)
    ensures sel == Kept(group, preds[..k + 1], n, n)
  {
    hide Kept, Matching, Keeps, RowMatches, Increasing;
    var p := preds[k];
    PredMatches(group, preds, n, k);
    KeptExact(group, preds[..k], n, n);
    KeptExact(group, preds[..k + 1], n, n);
    MatchingExact(group[p.col], p.op, p.lit, n);
    SortedUnique(sel, Kept(group, preds[..k + 1], n, n));
  }

  lemma {:induction false} KeptAll(group: seq<Column>, preds: seq<Pred>, n: nat, k: nat)
    requires Table(group, n) && preds == [] && k <= n
    ensures Kept(group, preds, n, k) == Range(k)
  {
    if k > 0 {
      KeptAll(group, preds, n, k - 1);
    }
  }

  /** Once no row is left, no further predicate brings one back. */
  lemma KeptShrinks(group: seq<Column>, preds: seq<Pred>, n: nat, k: nat)
    requires Table(group, n) && Typed(group, preds) && k <= |preds| && Typed(group, preds[..k])
    requires Kept(group, preds[..k], n, n) == []
    ensures Kept(group, preds, n, n) == []
  {
    hide Kept, RowMatches;
    KeptExact(group, preds, n, n);
    KeptExact(group, preds[..k], n, n);
    HasMember(Kept(group, preds, n, n));
    forall x: nat | x < n ensures Keeps(group, preds, n, x) ==> Keeps(group, preds[..k], n, x) {
    }
  }

  function ProjectAll(group: seq<Column>, cols: seq<nat>, n: nat, sel: seq<nat>): (rows: seq<seq<Cell>>)
    requires Table(group, n) && forall j :: 0 <= j < |cols| ==> cols[j] < |group|
    requires forall i :: 0 <= i < |sel| ==> sel[i] < n
    ensures |rows| == |sel| && forall i :: 0 <= i < |sel| ==> rows[i] == RowOf(group, cols, n, sel[i])
  {
    if sel == [] then [] else ProjectAll(group, cols, n, sel[..|sel| - 1]) + [RowOf(group, cols, n, sel[|sel| - 1])]
  }

  lemma {:induction false} FilteredIsProjected(group: seq<Column>, preds: seq<Pred>, cols: seq<nat>, n: nat, k: nat)
    requires Table(group, n) && Typed(group, preds) && k <= n && forall j :: 0 <= j < |cols| ==> cols[j] < |group|
    ensures FilteredRows(group, preds, cols, n, k) == ProjectAll(group, cols, n, Kept(group, preds, n, k))
  {
    hide Keeps, RowOf;
    if k > 0 {
      FilteredIsProjected(group, preds, cols, n, k - 1);
      assert Keeps(group, preds, n, k - 1) ==> Kept(group, preds, n, k)[..|Kept(group, preds, n, k)| - 1] == Kept(group, preds, n, k - 1);
    }
  }

  lemma {:induction false} BatchIsProjected(group: seq<Column>, cols: seq<nat>, n: nat, sel: seq<nat>, batch: seq<Column>, k: nat)
    requires Table(group, n) && forall j :: 0 <= j < |cols| ==> cols[j] < |group|
    requires forall i :: 0 <= i < |sel| ==> sel[i] < n
    requires |batch| == |cols| && forall j :: 0 <= j < |cols| ==> batch[j] == PickColumn(group[cols[j]], sel)
    requires k <= |sel|
    ensures forall j :: 0 <= j < |batch| ==> Rows(batch[j]) == |sel|
    ensures BatchRows(batch, k) == ProjectAll(group, cols, n, sel[..k])
  {
    if k > 0 {
      BatchIsProjected(group, cols, n, sel, batch, k - 1);
      assert sel[..k][..k - 1] == sel[..k - 1];
      assert seq(|batch|, c requires 0 <= c < |batch| => CellAt(batch[c], k - 1)) == RowOf(group, cols, n, sel[k - 1]);
    }
  }

  /** The predicate phase: `None` before the first predicate, then the surviving rows. */
  ghost predicate Selected(group: seq<Column>, preds: seq<Pred>, n: nat, k: nat, sel: Option<seq<nat>>)
    requires Table(group, n) && Typed(group, preds) && k <= |preds|
  {
    && Typed(group, preds[..k])
    && if k == 0 then sel == None else sel == Some(Kept(group, preds[..k], n, n))
  }

  lemma KeepsVacuously(group: seq<Column>, preds: seq<Pred>, n: nat, i: nat)
    requires Table(group, n) && preds == [] && i < n
    ensures Keeps(group, preds, n, i)
  {
  }

  lemma FirstSelected(group: seq<Column>, preds: seq<Pred>, n: nat)
    requires Table(group, n) && Typed(group, preds) && preds != []
    ensures preds[0].col < |group| && Comparable(TypeOf(group[preds[0].col]), preds[0].op, preds[0].lit)
    ensures Rows(group[preds[0].col]) == n
    ensures Selected(group, preds, n, 1, Some(Matching(group[preds[0].col], preds[0].op, preds[0].lit, n)))
  {
    hide Kept, Matching, Keeps, RowMatches, Increasing, Comparable;
    var p := preds[0];
    PredMatches(group, preds, n, 0);
    MatchingExact(group[p.col], p.op, p.lit, n);
    assert preds[..0] == [];
    KeptExact(group, preds[..0], n, n);
    forall x: nat | x < n ensures Keeps(group, preds[..0], n, x) {
      KeepsVacuously(group, preds[..0], n, x);
    }
    KeptNext(group, preds, n, 0, Matching(group[p.col], p.op, p.lit, n));
  }

  lemma NextSelected(group: seq<Column>, preds: seq<Pred>, n: nat, k: nat, prev: seq<nat>, s: seq<nat>, sel: seq<nat>)
    requires Table(group, n) && Typed(group, preds) && 0 < k < |preds| && Selected(group, preds, n, k, Some(prev))
    requires preds[k].col < |group| && Comparable(TypeOf(group[preds[k].col]), preds[k].op, preds[k].lit)
    requires Rows(group[preds[k].col]) == n && s == Matching(group[preds[k].col], preds[k].op, preds[k].lit, n)
    requires Increasing(prev) && Increasing(s) ==> Increasing(sel) && forall x :: x in sel <==> x in prev && x in s
    ensures Selected(group, preds, n, k + 1, Some(sel))
  {
    hide Kept, Matching, Keeps, RowMatches, Increasing, Comparable;
    PredMatches(group, preds, n, k);
    MatchingExact(group[preds[k].col], preds[k].op, preds[k].lit, n);
    KeptExact(group, preds[..k], n, n);
    KeptNext(group, preds, n, k, sel);
  }

  lemma NothingSelected(group: seq<Column>, preds: seq<Pred>, n: nat, k: nat)
    requires Table(group, n) && Typed(group, preds) && 0 < k <= |preds| && Selected(group, preds, n, k, Some([]))
    ensures Kept(group, preds, n, n) == []
  {
    KeptShrinks(group, preds, n, k);
  }

  lemma AllSelected(group: seq<Column>, preds: seq<Pred>, n: nat, sel: Option<seq<nat>>)
    requires Table(group, n) && Typed(group, preds) && Selected(group, preds, n, |preds|, sel)
    ensures Kept(group, preds, n, n) == if sel.None? then Range(n) else sel.value
  {
    assert preds[..|preds|] == preds;
    if preds == [] {
      KeptAll(group, preds, n, n);
    }
  }

  lemma PredColumn(file: seq<byte>, rg: RowGroupMeta, group: seq<Column>, preds: seq<Pred>, k: nat)
    requires Scannable(file, rg, group) && Typed(group, preds) && k < |preds|
    ensures var p := preds[k];
            && p.col < |group| == |rg.chunks| && Readable(file, rg.chunks[p.col], group[p.col])
            && Comparable(rg.chunks[p.col].dtype, p.op, p.lit) && Comparable(TypeOf(group[p.col]), p.op, p.lit)
            && Rows(group[p.col]) == rg.rows
  {
    hide Comparable;
    assert preds[k] in preds;
    HeldType(file, rg.chunks[preds[k].col], group[preds[k].col]);
  }

  /** The predicate phase; `None` is a panic. */
  method Select(file: seq<byte>, rg: RowGroupMeta, preds: seq<Pred>, ghost group: seq<Column>) returns (r: Option<seq<nat>>)
    ensures Scannable(file, rg, group) && Typed(group, preds) ==> r == Some(Kept(group, preds, rg.rows, rg.rows))
  {
    hide ChunkHolds, Kept, Matching, Selected, Typed, Comparable, Increasing, Readable;
    ghost var held := Scannable(file, rg, group) && Typed(group, preds);
    var sel: Option<seq<nat>> := None;
    if held {
      NotSelected(group, preds, rg.rows);
    }
    for k := 0 to |preds|
      invariant sel == None <==> k == 0
      invariant held ==> Selected(group, preds, rg.rows, k, sel)
    {
      var p := preds[k];
      if held {
        PredColumn(file, rg, group, preds, k);
      }
      if p.col >= |rg.chunks| {
        return None;
      }
      var s := EvalPred(file, rg.chunks[p.col], p.op, p.lit, if held then group[p.col] else Ints([]));
      if s.None? {
        return None;
      }
      match sel {
        case None =>
          if held {
            FirstSelected(group, preds, rg.rows);
          }
          sel := s;
        case Some(prev) =>
          var both := IntersectSorted(prev, s.value);
          if held {
            NextSelected(group, preds, rg.rows, k, prev, s.value, both);
          }
          sel := Some(both);
      }
      if sel.value == [] {
        if held {
          NothingSelected(group, preds, rg.rows, k + 1);
        }
        return Some([]);
      }
    }
    if held {
      AllSelected(group, preds, rg.rows, sel);
    }
    r := if sel.None? then Some(Range(rg.rows % TWO_32)) else sel;
  }

  lemma NotSelected(group: seq<Column>, preds: seq<Pred>, n: nat)
    requires Table(group, n) && Typed(group, preds)
    ensures Selected(group, preds, n, 0, None)
  {
  }

  /** What the materialization phase needs to know. */
  lemma Projected(file: seq<byte>, rg: RowGroupMeta, group: seq<Column>, preds: seq<Pred>, cols: seq<nat>)
    requires ScanArgs(file, rg, group, preds, cols)
    ensures var n := rg.rows; var sel := Kept(group, preds, n, n);
            && (forall j :: 0 <= j < |cols| ==>
                 && cols[j] < |group| == |rg.chunks| && Rows(group[cols[j]]) == n
                 && Readable(file, rg.chunks[cols[j]], group[cols[j]]))
            && Ascending(sel) && Below(sel, n) == |sel| && sel[..|sel|] == sel
            && FilteredRows(group, preds, cols, n, n) == ProjectAll(group, cols, n, sel)
            && (sel == [] ==> FilteredRows(group, preds, cols, n, n) == [])
  {
    hide Kept, FilteredRows, ChunkHolds, Keeps;
    var sel := Kept(group, preds, rg.rows, rg.rows);
    KeptExact(group, preds, rg.rows, rg.rows);
    FilteredIsProjected(group, preds, cols, rg.rows, rg.rows);
    AllBelow(sel, rg.rows);
  }

  lemma {:induction false} AllBelow(sel: seq<nat>, n: nat)
    requires forall i :: 0 <= i < |sel| ==> sel[i] < n
    ensures Below(sel, n) == |sel|
  {
    if sel != [] {
      AllBelow(sel[1..], n);
    }
  }

  lemma ArgsParts(file: seq<byte>, rg: RowGroupMeta, group: seq<Column>, preds: seq<Pred>, cols: seq<nat>)
    requires ScanArgs(file, rg, group, preds, cols)
    ensures Scannable(file, rg, group) && Typed(group, preds) && Table(group, rg.rows)
    ensures forall j :: 0 <= j < |cols| ==> cols[j] < |group|
  {
  }

  /** The materialization phase: one gather for each projected column. */
  method Materialize(file: seq<byte>, rg: RowGroupMeta, sel: seq<nat>, cols: seq<nat>, ghost group: seq<Column>)
    returns (r: Option<seq<Column>>)
    ensures Ascending(sel) && |group| == |rg.chunks| && (forall i :: 0 <= i < |sel| ==> sel[i] < rg.rows)
      && (forall j :: 0 <= j < |cols| ==>
           cols[j] < |group| && Rows(group[cols[j]]) == rg.rows && Readable(file, rg.chunks[cols[j]], group[cols[j]]))
      ==> r.Some? && |r.value| == |cols| && forall j :: 0 <= j < |cols| ==> r.value[j] == PickColumn(group[cols[j]], sel)
  {
    hide Readable, Ascending, Below, PickColumn;
    ghost var held := Ascending(sel) && |group| == |rg.chunks| && (forall i :: 0 <= i < |sel| ==> sel[i] < rg.rows)
      && forall j :: 0 <= j < |cols| ==>
           cols[j] < |group| && Rows(group[cols[j]]) == rg.rows && Readable(file, rg.chunks[cols[j]], group[cols[j]]);
    var batch: seq<Column> := [];
    for j := 0 to |cols|
      invariant |batch| == j
      invariant held ==> forall i :: 0 <= i < j ==> batch[i] == PickColumn(group[cols[i]], sel)
    {
      if cols[j] >= |rg.chunks| {
        return None;
      }
      var got := Gather(file, rg.chunks[cols[j]], sel, if held then group[cols[j]] else Ints([]));
      if got.None? {
        return None;
      }
      if held {
        AllBelow(sel, rg.rows);
        assert sel[..|sel|] == sel;
      }
      batch := batch + [got.value];
    }
    r := Some(batch);
  }

  /** `scan_rowgroup`: on a row group the writer wrote, exactly the filtered and projected rows. */
  method ScanRowgroup(file: seq<byte>, rg: RowGroupMeta, preds: seq<Pred>, cols: seq<nat>, ghost group: seq<Column>)
    returns (r: ScanResult)
    ensures ScanArgs(file, rg, group, preds, cols) ==>
      && !r.Panic?
      && (r.Batch? ==> r.rows > 0 && forall c :: 0 <= c < |r.cols| ==> Rows(r.cols[c]) == r.rows)
      && ResultRows(r) == FilteredRows(group, preds, cols, rg.rows, rg.rows)
  {
    hide ScanArgs, Scannable, Typed, Table, Readable, FilteredRows, BatchRows, Kept, ProjectAll, PickColumn, Below;
    ghost var held := ScanArgs(file, rg, group, preds, cols);
    if held {
      ArgsParts(file, rg, group, preds, cols);
      Projected(file, rg, group, preds, cols);
    }
    var sel := Select(file, rg, preds, group);
    if sel.None? {
      return Panic;
    }
    if sel.value == [] {
      return Nothing;
    }
    var batch := Materialize(file, rg, sel.value, cols, group);
    if batch.None? {
      return Panic;
    }
    if held {
      BatchIsProjected(group, cols, rg.rows, sel.value, batch.value, |sel.value|);
    }
    r := Batch(batch.value, |sel.value|);
  }
}
