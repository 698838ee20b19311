/** Rows, and scans of them. */
module Rows {
  import opened Bytes
  import opened Cursor
  import opened BlitzReader
  import opened LateScan
  import C = BlitzChunks

  type Row = seq<Cell>

  predicate CellHit(c: Cell, op: Op, lit: Literal) {
    match (c, lit)
    case (I(v), Int(l)) => Hit(v, op, l)
    case (S(t), Str(s)) => op == Eq && t == s
    case _ => false
  }

  predicate RowKept(row: Row, preds: seq<Pred>) {
    forall p :: p in preds ==> p.col < |row| && CellHit(row[p.col], p.op, p.lit)
  }

  /** The columns `cols` of a row; a column it does not have reads as zero, which plans never ask for. */
  function Project(row: Row, cols: seq<nat>): (r: Row)
    ensures |r| == |cols| && forall j :: 0 <= j < |cols| && cols[j] < |row| ==> r[j] == row[cols[j]]
  {
    seq(|cols|, j requires 0 <= j < |cols| => if cols[j] < |row| then row[cols[j]] else I(0))
  }

  /** Decode everything, filter, project. */
  function Scan(rows: seq<Row>, preds: seq<Pred>, cols: seq<nat>): seq<Row> {
    if rows == [] then [] else
    var n := |rows| - 1;
    Scan(rows[..n], preds, cols) + if RowKept(rows[n], preds) then [Project(rows[n], cols)] else []
  }

  /** The rows of a decoded row group. */
  function TableRows(group: seq<C.Column>, n: nat, k: nat): (rows: seq<Row>)
    requires Table(group, n) && k <= n
    ensures |rows| == k
    ensures forall i :: 0 <= i < k ==> |rows[i]| == |group| && forall c :: 0 <= c < |group| ==> rows[i][c] == CellAt(group[c], i)
  {
    if k == 0 then [] else TableRows(group, n, k - 1) + [seq(|group|, c requires 0 <= c < |group| => CellAt(group[c], k - 1))]
  }

  /** What `scan_rowgroup` returns is a scan of the row group's rows. */
  lemma {:induction false} FilteredIsScan(group: seq<C.Column>, preds: seq<Pred>, cols: seq<nat>, n: nat, k: nat)
    requires Table(group, n) && Typed(group, preds) && k <= n && forall j :: 0 <= j < |cols| ==> cols[j] < |group|
    ensures FilteredRows(group, preds, cols, n, k) == Scan(TableRows(group, n, k), preds, cols)
  {
    hide Hit;
    if k > 0 {
      FilteredIsScan(group, preds, cols, n, k - 1);
      var rows := TableRows(group, n, k);
      assert rows[..k - 1] == TableRows(group, n, k - 1);
      KeepsIsKept(group, preds, n, k - 1, rows[k - 1]);
      assert RowOf(group, cols, n, k - 1) == Project(rows[k - 1], cols);
    }
  }

  lemma KeepsIsKept(group: seq<C.Column>, preds: seq<Pred>, n: nat, i: nat, row: Row)
    requires Table(group, n) && Typed(group, preds) && i < n && |row| == |group|
    requires forall c :: 0 <= c < |group| ==> row[c] == CellAt(group[c], i)
    ensures Keeps(group, preds, n, i) <==> RowKept(row, preds)
  {
    hide Hit;
    forall p | p in preds ensures p.col < |row| && (RowMatches(group[p.col], p.op, p.lit, i) <==> CellHit(row[p.col], p.op, p.lit)) {
      assert row[p.col] == CellAt(group[p.col], i);
    }
  }

  lemma {:induction false} ScanConcat(a: seq<Row>, b: seq<Row>, preds: seq<Pred>, cols: seq<nat>)
    ensures Scan(a + b, preds, cols) == Scan(a, preds, cols) + Scan(b, preds, cols)
    decreases |b|
  {
    hide RowKept, Project;
    if b == [] {
      assert a + b == a;
    } else {
      var m := |b| - 1;
      ScanConcat(a, b[..m], preds, cols);
      assert (a + b)[..|a| + m] == a + b[..m];
    }
  }
}
