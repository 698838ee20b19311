/** Files written and read back. */
module BlitzRoundTrip {
  import opened Wrappers
  import opened Bytes
  import opened Cursor
  import opened BlitzFooter
  import opened BlitzChunks
  import opened BlitzWriter
  import opened BlitzReader
  import LateScan

  /** The columns of a row group match the schema, which has at least one field. */
  ghost predicate Conforms(schema: seq<Field>, cols: seq<Column>) {
    |cols| == |schema| > 0 && forall c :: 0 <= c < |cols| ==> TypeOf(cols[c]) == schema[c].dtype
  }

  method WriteFile(schema: seq<Field>, groups: seq<seq<Column>>) returns (file: seq<byte>, meta: FileMeta)
    requires forall g :: 0 <= g < |groups| ==> Conforms(schema, groups[g])
    ensures meta.schema == schema && GroupsHold(file, meta.rowgroups, groups)
    ensures |FooterBytes(schema, meta.rowgroups)| < TWO_32 && |file| < TWO_64 ==> Open(file) == Some(meta)
  {
    hide GroupsHold, FooterBytes, Open, Finished;
    var w := new Writer(schema);
    for g := 0 to |groups|
      invariant fresh(w) && w.Valid() && w.schema == schema && w.written == groups[..g]
    {
      w.WriteRowgroup(groups[g]);
      assert groups[..g + 1] == groups[..g] + [groups[g]];
    }
    assert groups[..|groups|] == groups;
    meta := w.Finish();
    file := w.file;
  }

  /** What was written is what is read: the metadata by `Reader::open`, a column by `read_chunk`. */
  method WriteThenRead(schema: seq<Field>, groups: seq<seq<Column>>, g: nat, c: nat)
    returns (file: seq<byte>, meta: FileMeta, reread: Option<FileMeta>, col: Option<Column>)
    requires forall i :: 0 <= i < |groups| ==> Conforms(schema, groups[i])
    requires g < |groups| && c < |schema| == |groups[g]|
    ensures |FooterBytes(schema, meta.rowgroups)| < TWO_32 && |file| < TWO_64 ==>
      && reread == Some(meta) && meta.schema == schema && |meta.rowgroups| == |groups|
      && (Fits(groups[g][c]) && Rows(groups[g][c]) == Rows(groups[g][0]) < TWO_32 ==> col == Some(groups[g][c]))
  {
    hide FooterBytes, Open, ChunkHolds, Fits;
    file, meta := WriteFile(schema, groups);
    reread := OpenFile(file);
    col := None;
    assert GroupHolds(file, meta.rowgroups[g], groups[g]);
    if reread.Some? && g < |reread.value.rowgroups| && c < |reread.value.rowgroups[g].chunks| {
      var rg := reread.value.rowgroups[g];
      col := ReadChunk(file, rg.rows, rg.chunks[c], groups[g][c]);
      WholePrefix(groups[g][c]);
    }
  }

  lemma WholePrefix(col: Column)
    ensures Prefix(col, Rows(col)) == col
  {
  }

  /** What the writer leaves behind is what a scan asks for, when the columns have equally many rows. */
  lemma WrittenIsScannable(file: seq<byte>, rg: RowGroupMeta, cols: seq<Column>)
    requires GroupHolds(file, rg, cols) && |file| < TWO_64
    requires forall c :: 0 <= c < |cols| ==> Fits(cols[c]) && Rows(cols[c]) == Rows(cols[0]) < TWO_32
    ensures LateScan.Scannable(file, rg, cols)
  {
    hide ChunkHolds, Fits;
  }
}
