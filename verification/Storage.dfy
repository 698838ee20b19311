/** Data files as bytes. */
module Storage {
  /* What it means for the bytes of a file to store its rows, scanning them, and writing them. */

  import opened Wrappers
  import opened Bytes
  import opened Bounds
  import opened BlitzFooter
  import opened BlitzReader
  import opened LateScan
  import opened Rows
  import opened Permutations
  import opened Plan
  import C = BlitzChunks
  import W = BlitzWriter
  import BlitzRoundTrip

  // ---- files that store their rows ----

  ghost predicate HoldsRows(bytes: seq<byte>, rg: RowGroupMeta, fields: seq<FieldDef>, rows: seq<Row>, cols: seq<C.Column>) {
    && Scannable(bytes, rg, cols) && |cols| == |fields|
    && (forall c :: 0 <= c < |cols| ==> C.TypeOf(cols[c]) == fields[c].dtype)
    && rows == TableRows(cols, rg.rows, rg.rows)
  }

  ghost predicate GroupStored(bytes: seq<byte>, rg: RowGroupMeta, fields: seq<FieldDef>, rows: seq<Row>) {
    exists cols :: HoldsRows(bytes, rg, fields, rows, cols)
  }

  ghost predicate GroupsStored(bytes: seq<byte>, rgs: seq<RowGroupMeta>, fields: seq<FieldDef>, groups: seq<seq<Row>>) {
    |rgs| == |groups| && forall g :: 0 <= g < |rgs| ==> GroupStored(bytes, rgs[g], fields, groups[g])
  }

  /** The bytes open as a file whose row groups hold the rows, in columns of the fields' types. */
  ghost predicate Stored(f: DataFile, fields: seq<FieldDef>) {
    Open(f.bytes).Some? && GroupsStored(f.bytes, Open(f.bytes).value.rowgroups, fields, f.groups)
  }

  /** The predicates name existing columns and compare them with literals of their type. */
  ghost predicate WellTyped(preds: seq<Pred>, fields: seq<FieldDef>) {
    forall p :: p in preds ==> p.col < |fields| && Comparable(fields[p.col].dtype, p.op, p.lit)
  }

  // ---- scanning the bytes ----

  /** The loop over a batch that takes it apart with `cell_at`. */
  method ToRows(cols: seq<C.Column>, k: nat) returns (rows: seq<Row>)
    requires forall c :: 0 <= c < |cols| ==> k <= C.Rows(cols[c])
    ensures rows == BatchRows(cols, k)
  {
    rows := [];
    for i := 0 to k
      invariant rows == BatchRows(cols, i)
    {
      var row: Row := [];
      for c := 0 to |cols|
        invariant |row| == c && forall d :: 0 <= d < c ==> row[d] == CellAt(cols[d], i)
      {
        row := row + [CellAt(cols[c], i)];
      }
      assert row == seq(|cols|, c requires 0 <= c < |cols| => CellAt(cols[c], i));
      rows := rows + [row];
    }
  }

  /** One task: `scan_rowgroup`, and its batch as rows; `None` is a panic. */
  method ScanGroup(bytes: seq<byte>, rg: RowGroupMeta, preds: seq<Pred>, cols: seq<nat>, ghost fields: seq<FieldDef>, ghost rows: seq<Row>)
    returns (r: Option<seq<Row>>)
    ensures GroupStored(bytes, rg, fields, rows) && WellTyped(preds, fields) && (forall j :: 0 <= j < |cols| ==> cols[j] < |fields|)
      ==> r == Some(Scan(rows, preds, cols))
  {
    hide Scannable, Table, Scan, TableRows, FilteredRows, BatchRows, WellTyped;
    ghost var held := GroupStored(bytes, rg, fields, rows) && WellTyped(preds, fields) && forall j :: 0 <= j < |cols| ==> cols[j] < |fields|;
    ghost var group: seq<C.Column> := [];
    if held {
      group :| HoldsRows(bytes, rg, fields, rows, group);
      ScansGroup(bytes, rg, preds, cols, fields, rows, group);
    }
    var got := ScanRowgroup(bytes, rg, preds, cols, group);
    match got {
      case Panic => r := None;
      case Nothing => r := Some([]);
      case Batch(columns, n) =>
        if exists c :: 0 <= c < |columns| && C.Rows(columns[c]) < n {
          return None;
        }
        var batch := ToRows(columns, n);
        r := Some(batch);
    }
  }

  lemma ScansGroup(bytes: seq<byte>, rg: RowGroupMeta, preds: seq<Pred>, cols: seq<nat>, fields: seq<FieldDef>, rows: seq<Row>,
                   group: seq<C.Column>)
    requires HoldsRows(bytes, rg, fields, rows, group) && WellTyped(preds, fields)
    requires forall j :: 0 <= j < |cols| ==> cols[j] < |fields|
    ensures ScanArgs(bytes, rg, group, preds, cols)
    ensures FilteredRows(group, preds, cols, rg.rows, rg.rows) == Scan(rows, preds, cols)
  {
    hide C.ChunkHolds, Scan, TableRows, FilteredRows, Comparable;
    FilteredIsScan(group, preds, cols, rg.rows, rg.rows);
  }

  /** All tasks of one file. */
  method ScanFile(f: DataFile, preds: seq<Pred>, cols: seq<nat>, ghost fields: seq<FieldDef>) returns (r: Option<seq<seq<Row>>>)
    ensures Stored(f, fields) && WellTyped(preds, fields) && (forall j :: 0 <= j < |cols| ==> cols[j] < |fields|)
      ==> r.Some? && |r.value| == |f.groups| && forall g :: 0 <= g < |f.groups| ==> r.value[g] == Scan(f.groups[g], preds, cols)
  {
    hide Open, GroupStored, WellTyped, Scan;
    ghost var held := Stored(f, fields) && WellTyped(preds, fields) && forall j :: 0 <= j < |cols| ==> cols[j] < |fields|;
    var meta := OpenFile(f.bytes);
    if meta.None? {
      return None;
    }
    var rgs := meta.value.rowgroups;
    var batches: seq<seq<Row>> := [];
    for g := 0 to |rgs|
      invariant |batches| == g
      invariant held ==> forall h :: 0 <= h < g ==> batches[h] == Scan(f.groups[h], preds, cols)
    {
      var batch := ScanGroup(f.bytes, rgs[g], preds, cols, fields, if held then f.groups[g] else []);
      if batch.None? {
        return None;
      }
      batches := batches + [batch.value];
    }
    r := Some(batches);
  }

  // ---- writing ----

  /** The columns of a row group to be written: of the fields' types, equally long, with dictionaries that fit. */
  ghost predicate Writable(schema: seq<Field>, fields: seq<FieldDef>, cols: seq<C.Column>) {
    && BlitzRoundTrip.Conforms(schema, cols) && |fields| == |schema|
    && (forall c :: 0 <= c < |fields| ==> fields[c].dtype == schema[c].dtype)
    && forall c :: 0 <= c < |cols| ==> C.Fits(cols[c]) && C.Rows(cols[c]) == C.Rows(cols[0]) < TWO_32
  }

  function GroupRows(cols: seq<C.Column>): seq<Row>
    requires cols != [] && Table(cols, C.Rows(cols[0]))
  {
    TableRows(cols, C.Rows(cols[0]), C.Rows(cols[0]))
  }

  lemma WritableTable(schema: seq<Field>, fields: seq<FieldDef>, cols: seq<C.Column>)
    requires Writable(schema, fields, cols)
    ensures cols != [] && Table(cols, C.Rows(cols[0]))
  {
    hide C.Fits;
  }

  lemma WrittenGroup(bytes: seq<byte>, rg: RowGroupMeta, schema: seq<Field>, fields: seq<FieldDef>, cols: seq<C.Column>)
    requires W.GroupHolds(bytes, rg, cols) && Writable(schema, fields, cols) && |bytes| < TWO_64
    ensures cols != [] && Table(cols, C.Rows(cols[0])) && GroupStored(bytes, rg, fields, GroupRows(cols))
  {
    hide C.Fits, C.ChunkHolds, TableRows;
    WritableTable(schema, fields, cols);
    BlitzRoundTrip.WrittenIsScannable(bytes, rg, cols);
    assert HoldsRows(bytes, rg, fields, GroupRows(cols), cols);
  }

  /** Writing row groups, and closing the file, stores their rows: a scan of the file's bytes is a scan of those. */
  method WriteDataFile(schema: seq<Field>, fields: seq<FieldDef>, bounds: seq<Bound>, groups: seq<seq<C.Column>>)
    returns (f: DataFile, meta: FileMeta)
    requires forall g :: 0 <= g < |groups| ==> Writable(schema, fields, groups[g])
    ensures f.bounds == bounds && |f.groups| == |groups|
    ensures forall g :: 0 <= g < |groups| ==>
      groups[g] != [] && Table(groups[g], C.Rows(groups[g][0])) && f.groups[g] == GroupRows(groups[g])
    ensures |FooterBytes(schema, meta.rowgroups)| < TWO_32 && |f.bytes| < TWO_64 ==> Stored(f, fields)
  {
    hide Writable, FooterBytes, Open, W.GroupHolds, GroupStored, TableRows, Table;
    forall g | 0 <= g < |groups| ensures BlitzRoundTrip.Conforms(schema, groups[g]) {
      WritableConforms(schema, fields, groups[g]);
    }
    var bytes;
    bytes, meta := BlitzRoundTrip.WriteFile(schema, groups);
    var rows: seq<seq<Row>> := [];
    for g := 0 to |groups|
      invariant |rows| == g && forall h :: 0 <= h < g ==>
        groups[h] != [] && Table(groups[h], C.Rows(groups[h][0])) && rows[h] == GroupRows(groups[h])
    {
      WritableTable(schema, fields, groups[g]);
      rows := rows + [GroupRows(groups[g])];
    }
    f := DataFile(bounds, bytes, rows);
    if |FooterBytes(schema, meta.rowgroups)| < TWO_32 && |bytes| < TWO_64 {
      forall g | 0 <= g < |groups| ensures GroupStored(bytes, meta.rowgroups[g], fields, rows[g]) {
        WrittenGroup(bytes, meta.rowgroups[g], schema, fields, groups[g]);
      }
    }
  }

  lemma WritableConforms(schema: seq<Field>, fields: seq<FieldDef>, cols: seq<C.Column>)
    requires Writable(schema, fields, cols)
    ensures BlitzRoundTrip.Conforms(schema, cols)
  {
    hide C.Fits;
  }
}
