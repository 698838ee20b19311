/** Iceberg manifests in Avro, written and read back. */
module Manifest {
  /* Manifests and manifest lists as Avro containers, and the walk from a snapshot to its data files. */

  import opened Wrappers
  import opened Bytes
  import opened Unicode
  import opened Avro
  import opened AvroSchema
  import opened AvroContainer
  import opened Bounds

  /** A data file as its manifest entry describes it. */
  datatype FileEntry = FileEntry(path: Text, fileSize: i64, recordCount: i64, bounds: seq<Bound>)

  /** A manifest as a manifest list refers to it. */
  datatype ManifestRef = ManifestRef(path: Text, length: i64, rows: i64)

  type Store = map<Text, seq<byte>>

  // ---- schemas ----

  const KEY: Text := Ascii("key")
  const VALUE: Text := Ascii("value")
  const STATUS: Text := Ascii("status")
  const SNAPSHOT_ID: Text := Ascii("snapshot_id")
  const DATA_FILE: Text := Ascii("data_file")
  const CONTENT: Text := Ascii("content")
  const FILE_PATH: Text := Ascii("file_path")
  const FILE_FORMAT: Text := Ascii("file_format")
  const PARTITION: Text := Ascii("partition")
  const RECORD_COUNT: Text := Ascii("record_count")
  const FILE_SIZE: Text := Ascii("file_size_in_bytes")
  const LOWER_BOUNDS: Text := Ascii("lower_bounds")
  const UPPER_BOUNDS: Text := Ascii("upper_bounds")
  const MANIFEST_PATH: Text := Ascii("manifest_path")
  const BLITZCOL: Text := Ascii("BLITZCOL")

  const KEY_VALUE_SCHEMA: Schema := SRecord(Ascii("k_v"), [(KEY, SInt), (VALUE, SBytes)])
  const BOUNDS_SCHEMA: Schema := SUnion([SNull, SArray(KEY_VALUE_SCHEMA)])
  const DATA_FILE_SCHEMA: Schema :=
    SRecord(Ascii("r2"), [
      (CONTENT, SInt), (FILE_PATH, SString), (FILE_FORMAT, SString), (PARTITION, SRecord(Ascii("r102"), [])),
      (RECORD_COUNT, SLong), (FILE_SIZE, SLong), (LOWER_BOUNDS, BOUNDS_SCHEMA), (UPPER_BOUNDS, BOUNDS_SCHEMA)])
  const ENTRY_SCHEMA: Schema :=
    SRecord(Ascii("manifest_entry"), [
      (STATUS, SInt), (SNAPSHOT_ID, SUnion([SNull, SLong])), (DATA_FILE, DATA_FILE_SCHEMA)])
  const LIST_SCHEMA: Schema :=
    SRecord(Ascii("manifest_file"), [
      (MANIFEST_PATH, SString), (Ascii("manifest_length"), SLong), (Ascii("partition_spec_id"), SInt), (CONTENT, SInt),
      (Ascii("sequence_number"), SLong), (Ascii("min_sequence_number"), SLong), (Ascii("added_snapshot_id"), SLong),
      (Ascii("added_files_count"), SInt), (Ascii("existing_files_count"), SInt), (Ascii("deleted_files_count"), SInt),
      (Ascii("added_rows_count"), SLong), (Ascii("existing_rows_count"), SLong), (Ascii("deleted_rows_count"), SLong)])

  // ---- what is written ----

  function KeyValue(id: i32, b: seq<byte>): Value {
    Record([(KEY, Int(id)), (VALUE, Bytes(b))])
  }

  function LowerValues(bs: seq<Bound>): (vs: seq<Value>)
    ensures |vs| == |bs| && forall i :: 0 <= i < |vs| ==> vs[i] == KeyValue(bs[i].id, bs[i].lo)
  {
    seq(|bs|, i requires 0 <= i < |bs| => KeyValue(bs[i].id, bs[i].lo))
  }

  function UpperValues(bs: seq<Bound>): (vs: seq<Value>)
    ensures |vs| == |bs| && forall i :: 0 <= i < |vs| ==> vs[i] == KeyValue(bs[i].id, bs[i].hi)
  {
    seq(|bs|, i requires 0 <= i < |bs| => KeyValue(bs[i].id, bs[i].hi))
  }

  function DataFileFields(f: FileEntry): seq<(Text, Value)> {
    [(CONTENT, Int(0)), (FILE_PATH, String(f.path)), (FILE_FORMAT, String(BLITZCOL)), (PARTITION, Record([])),
     (RECORD_COUNT, Long(f.recordCount)), (FILE_SIZE, Long(f.fileSize)),
     (LOWER_BOUNDS, Union(1, Array(LowerValues(f.bounds)))), (UPPER_BOUNDS, Union(1, Array(UpperValues(f.bounds))))]
  }

  function EntryValue(snapshot: i64, f: FileEntry): Value {
    Record([(STATUS, Int(1)), (SNAPSHOT_ID, Union(1, Long(snapshot))), (DATA_FILE, Record(DataFileFields(f)))])
  }

  function RefValue(snapshot: i64, sequence: i64, m: ManifestRef): Value {
    Record([
      (MANIFEST_PATH, String(m.path)), (Ascii("manifest_length"), Long(m.length)), (Ascii("partition_spec_id"), Int(0)),
      (CONTENT, Int(0)), (Ascii("sequence_number"), Long(sequence)), (Ascii("min_sequence_number"), Long(sequence)),
      (Ascii("added_snapshot_id"), Long(snapshot)), (Ascii("added_files_count"), Int(1)),
      (Ascii("existing_files_count"), Int(0)), (Ascii("deleted_files_count"), Int(0)),
      (Ascii("added_rows_count"), Long(m.rows)), (Ascii("existing_rows_count"), Long(0)),
      (Ascii("deleted_rows_count"), Long(0))])
  }

  function ManifestRows(snapshot: i64, files: seq<FileEntry>): (vs: seq<Value>)
    ensures |vs| == |files| && forall i :: 0 <= i < |vs| ==> vs[i] == EntryValue(snapshot, files[i])
  {
    seq(|files|, i requires 0 <= i < |files| => EntryValue(snapshot, files[i]))
  }

  function ListRows(snapshot: i64, sequence: i64, refs: seq<ManifestRef>): (vs: seq<Value>)
    ensures |vs| == |refs| && forall i :: 0 <= i < |vs| ==> vs[i] == RefValue(snapshot, sequence, refs[i])
  {
    seq(|refs|, i requires 0 <= i < |refs| => RefValue(snapshot, sequence, refs[i]))
  }

  // ---- what is read; None is a panic ----

  function FieldOf(fs: seq<(Text, Value)>, name: Text): Option<Value> {
    if fs == [] then None else if fs[0].0 == name then Some(fs[0].1) else FieldOf(fs[1..], name)
  }

  function Field(v: Value, name: Text): Option<Value> {
    if v.Record? then FieldOf(v.fields, name) else None
  }

  function Flat(v: Value): Value {
    match v
    case Union(_, x) => Flat(x)
    case _ => v
  }

  /** `as_long().unwrap_or(0)`. */
  function LongOf(v: Value): i64 {
    match Flat(v)
    case Long(l) => l
    case Int(i) => i
    case _ => 0
  }

  function StrOf(v: Value): Option<Text> {
    match Flat(v)
    case String(t) => Some(t)
    case _ => None
  }

  /** One key and value of a list of bounds. */
  function ParseBound(v: Value): Option<(i32, seq<byte>)> {
    match (Field(v, KEY), Field(v, VALUE))
    case (Some(k), Some(b)) =>
      (match Flat(b)
       case Bytes(bytes) => Some((match Flat(k) case Int(i) => i case _ => 0, bytes))
       case _ => None)
    case _ => None
  }

  function ParseItems(items: seq<Value>): Option<seq<(i32, seq<byte>)>> {
    if items == [] then Some([]) else
    match ParseBound(items[0])
    case None => None
    case Some(b) => match ParseItems(items[1..]) case None => None case Some(more) => Some([b] + more)
  }

  function ParseBounds(v: Option<Value>): Option<seq<(i32, seq<byte>)>> {
    if v == None then Some([]) else
    match Flat(v.value)
    case Array(items) => ParseItems(items)
    case _ => Some([])
  }

  function HighOf(highs: seq<(i32, seq<byte>)>, id: i32): Option<seq<byte>> {
    if highs == [] then None else if highs[0].0 == id then Some(highs[0].1) else HighOf(highs[1..], id)
  }

  /** Each lower bound with the first upper bound of its id; without one it is dropped. */
  function Paired(lows: seq<(i32, seq<byte>)>, highs: seq<(i32, seq<byte>)>): seq<Bound> {
    if lows == [] then [] else
    (match HighOf(highs, lows[0].0) case None => [] case Some(hi) => [Bound(lows[0].0, lows[0].1, hi)])
    + Paired(lows[1..], highs)
  }

  function ParseDataFile(df: Value): Option<FileEntry> {
    var lows :- ParseBounds(Field(df, LOWER_BOUNDS));
    var highs :- ParseBounds(Field(df, UPPER_BOUNDS));
    var pathField :- Field(df, FILE_PATH);
    var path :- StrOf(pathField);
    var size :- Field(df, FILE_SIZE);
    var count :- Field(df, RECORD_COUNT);
    Some(FileEntry(path, LongOf(size), LongOf(count), Paired(lows, highs)))
  }

  /** The files an entry gives: none if it is marked deleted. */
  function ParseEntry(e: Value): Option<seq<FileEntry>> {
    var status :- Field(e, STATUS);
    if Flat(status) == Int(2) then Some([]) else
    var df :- Field(e, DATA_FILE);
    var f :- ParseDataFile(df);
    Some([f])
  }

  function ParseEntries(es: seq<Value>): Option<seq<FileEntry>> {
    if es == [] then Some([]) else
    var files :- ParseEntry(es[0]);
    var more :- ParseEntries(es[1..]);
    Some(files + more)
  }

  /** A container of the store. */
  function Load(lib: Foreign, store: Store, path: Text): Result<seq<Value>, Failure> {
    if path !in store then Err(NotFound) else
    match Read(lib, store[path]) case Err(e) => Err(e) case Ok((_, rows)) => Ok(rows)
  }

  function PlanManifest(lib: Foreign, store: Store, m: Value): Result<seq<FileEntry>, Failure> {
    var pathField := Field(m, MANIFEST_PATH);
    if pathField == None || StrOf(pathField.value) == None then Err(Panics) else
    match Load(lib, store, StrOf(pathField.value).value)
    case Err(e) => Err(e)
    case Ok(entries) => match ParseEntries(entries) case None => Err(Panics) case Some(files) => Ok(files)
  }

  function PlanManifests(lib: Foreign, store: Store, ms: seq<Value>): Result<seq<FileEntry>, Failure> {
    if ms == [] then Ok([]) else
    match PlanManifest(lib, store, ms[0])
    case Err(e) => Err(e)
    case Ok(files) => match PlanManifests(lib, store, ms[1..]) case Err(e) => Err(e) case Ok(more) => Ok(files + more)
  }

  /** A snapshot and the path of its manifest list. */
  datatype Snapshot = Snapshot(id: i64, list: Text)

  function ListOf(snapshots: seq<Snapshot>, id: i64): Option<Text> {
    if snapshots == [] then None else if snapshots[0].id == id then Some(snapshots[0].list) else ListOf(snapshots[1..], id)
  }

  /** `plan_files`. */
  function PlanFiles(lib: Foreign, store: Store, current: Option<i64>, snapshots: seq<Snapshot>): Result<seq<FileEntry>, Failure> {
    if current == None then Ok([]) else
    match ListOf(snapshots, current.value)
    case None => Err(Panics)
    case Some(list) => match Load(lib, store, list) case Err(e) => Err(e) case Ok(ms) => PlanManifests(lib, store, ms)
  }

  // ---- bounds as they come back ----

  /** Every bound gets the upper value of the first bound with its id. */
  function Rejoined(bs: seq<Bound>, all: seq<Bound>): (r: seq<Bound>)
    requires forall b :: b in bs ==> FindBound(all, b.id).Some?
    ensures |r| == |bs|
    ensures forall i :: 0 <= i < |bs| ==> r[i] == bs[i].(hi := FindBound(all, bs[i].id).value.hi)
  {
    if bs == [] then [] else [bs[0].(hi := FindBound(all, bs[0].id).value.hi)] + Rejoined(bs[1..], all)
  }

  lemma {:induction false} FindOwn(bs: seq<Bound>, i: nat)
    requires i < |bs|
    ensures FindBound(bs, bs[i].id).Some?
    decreases |bs|
  {
    if bs[0].id != bs[i].id {
      FindOwn(bs[1..], i - 1);
    }
  }

  function ReadBack(bs: seq<Bound>): (r: seq<Bound>)
    ensures |r| == |bs|
    ensures forall i :: 0 <= i < |bs| ==>
      FindBound(bs, bs[i].id).Some? && r[i] == bs[i].(hi := FindBound(bs, bs[i].id).value.hi)
  {
    assert forall b :: b in bs ==> FindBound(bs, b.id).Some? by {
      forall b | b in bs ensures FindBound(bs, b.id).Some? {
        var i :| 0 <= i < |bs| && bs[i] == b;
        FindOwn(bs, i);
      }
    }
    assert forall i :: 0 <= i < |bs| ==> bs[i] in bs;
    Rejoined(bs, bs)
  }

  function Kept(f: FileEntry): FileEntry {
    f.(bounds := ReadBack(f.bounds))
  }

  /** Bounds that share an id share their upper value. */
  ghost predicate BoundsAgree(f: FileEntry) {
    forall b :: b in f.bounds ==> FindBound(f.bounds, b.id).Some? && FindBound(f.bounds, b.id).value.hi == b.hi
  }

  /** Planning gives back a file exactly when its bounds agree. */
  lemma KeptIff(f: FileEntry)
    ensures Kept(f) == f <==> BoundsAgree(f)
  {
    hide FindBound;
    var r := ReadBack(f.bounds);
    if BoundsAgree(f) {
      assert forall i :: 0 <= i < |r| ==> f.bounds[i] in f.bounds && r[i] == f.bounds[i];
      assert r == f.bounds;
    }
    if Kept(f) == f {
      assert r == f.bounds;
      forall b | b in f.bounds ensures FindBound(f.bounds, b.id).Some? && FindBound(f.bounds, b.id).value.hi == b.hi {
        var i :| 0 <= i < |f.bounds| && f.bounds[i] == b;
        assert r[i] == f.bounds[i];
      }
    }
  }

  ghost predicate DistinctIds(bs: seq<Bound>) {
    forall i, j :: 0 <= i < j < |bs| ==> bs[i].id != bs[j].id
  }

  lemma {:induction false} FindDistinct(bs: seq<Bound>, i: nat)
    requires DistinctIds(bs) && i < |bs|
    ensures FindBound(bs, bs[i].id) == Some(bs[i])
    decreases |bs|
  {
    if i > 0 {
      FindDistinct(bs[1..], i - 1);
    }
  }

  /** Distinct field ids are enough. */
  lemma DistinctAgree(f: FileEntry)
    requires DistinctIds(f.bounds)
    ensures BoundsAgree(f)
  {
    hide FindBound;
    forall b | b in f.bounds ensures FindBound(f.bounds, b.id) == Some(b) {
      var i :| 0 <= i < |f.bounds| && f.bounds[i] == b;
      FindDistinct(f.bounds, i);
    }
  }

  lemma {:induction false} FindRejoined(bs: seq<Bound>, all: seq<Bound>, id: int)
    requires forall b :: b in bs ==> FindBound(all, b.id).Some?
    ensures FindBound(Rejoined(bs, all), id)
         == match FindBound(bs, id) case None => None case Some(b) => Some(Bound(b.id, b.lo, FindBound(all, b.id).value.hi))
    decreases |bs|
  {
    if bs != [] && bs[0].id != id {
      FindRejoined(bs[1..], all, id);
      assert Rejoined(bs, all)[1..] == Rejoined(bs[1..], all);
    }
  }

  /** Even when ids repeat, the bound that file pruning looks at is unchanged. */
  lemma ReadBackFinds(bs: seq<Bound>, id: int)
    ensures FindBound(ReadBack(bs), id) == FindBound(bs, id)
  {
    forall b | b in bs ensures FindBound(bs, b.id).Some? {
      var i :| 0 <= i < |bs| && bs[i] == b;
      FindOwn(bs, i);
    }
    FindRejoined(bs, bs, id);
  }

  // ---- values read back ----

  lemma {:induction false} FieldAt(fs: seq<(Text, Value)>, i: nat)
    requires i < |fs| && forall j :: 0 <= j < i ==> fs[j].0 != fs[i].0
    ensures FieldOf(fs, fs[i].0) == Some(fs[i].1)
    decreases |fs|
  {
    if i > 0 {
      FieldAt(fs[1..], i - 1);
    }
  }

  /** The names that are looked up differ from those before them, in length or in their first letter. */
  lemma FirstLettersOfNames()
    ensures RECORD_COUNT[0] == 114 && LOWER_BOUNDS[0] == 108 && UPPER_BOUNDS[0] == 117
    ensures FILE_PATH[0] == 102 && PARTITION[0] == 112 && DATA_FILE[0] == 100
  {
  }

  lemma KeyValueBack(id: i32, b: seq<byte>)
    ensures ParseBound(KeyValue(id, b)) == Some((id, b))
  {
    var fs := KeyValue(id, b).fields;
    assert KEY != VALUE;
    FieldAt(fs, 0);
    FieldAt(fs, 1);
  }

  function Lows(bs: seq<Bound>): (ps: seq<(i32, seq<byte>)>)
    ensures |ps| == |bs| && forall i :: 0 <= i < |ps| ==> ps[i] == (bs[i].id, bs[i].lo)
  {
    seq(|bs|, i requires 0 <= i < |bs| => (bs[i].id, bs[i].lo))
  }

  function Highs(bs: seq<Bound>): (ps: seq<(i32, seq<byte>)>)
    ensures |ps| == |bs| && forall i :: 0 <= i < |ps| ==> ps[i] == (bs[i].id, bs[i].hi)
  {
    seq(|bs|, i requires 0 <= i < |bs| => (bs[i].id, bs[i].hi))
  }

  lemma {:induction false} ItemsBack(vs: seq<Value>, ps: seq<(i32, seq<byte>)>)
    requires |vs| == |ps| && forall i :: 0 <= i < |vs| ==> vs[i] == KeyValue(ps[i].0, ps[i].1)
    ensures ParseItems(vs) == Some(ps)
    decreases |vs|
  {
    hide ParseBound;
    if vs != [] {
      KeyValueBack(ps[0].0, ps[0].1);
      ItemsBack(vs[1..], ps[1..]);
      assert ps == [(ps[0].0, ps[0].1)] + ps[1..];
    }
  }

  lemma {:induction false} HighOfHighs(bs: seq<Bound>, id: i32)
    ensures HighOf(Highs(bs), id) == match FindBound(bs, id) case None => None case Some(b) => Some(b.hi)
    decreases |bs|
  {
    if bs != [] && bs[0].id != id {
      HighOfHighs(bs[1..], id);
      assert Highs(bs)[1..] == Highs(bs[1..]);
    }
  }

  lemma {:induction false} PairedIs(bs: seq<Bound>, all: seq<Bound>)
    requires forall b :: b in bs ==> FindBound(all, b.id).Some?
    ensures Paired(Lows(bs), Highs(all)) == Rejoined(bs, all)
    decreases |bs|
  {
    if bs != [] {
      HighOfHighs(all, bs[0].id);
      PairedIs(bs[1..], all);
      assert Lows(bs)[1..] == Lows(bs[1..]);
    }
  }

  lemma PairedReadBack(bs: seq<Bound>)
    ensures Paired(Lows(bs), Highs(bs)) == ReadBack(bs)
  {
    forall b | b in bs ensures FindBound(bs, b.id).Some? {
      var i :| 0 <= i < |bs| && bs[i] == b;
      FindOwn(bs, i);
    }
    PairedIs(bs, bs);
  }

  lemma DataFileFieldsBack(f: FileEntry)
    ensures var df := Record(DataFileFields(f));
            && Field(df, FILE_PATH) == Some(String(f.path))
            && Field(df, RECORD_COUNT) == Some(Long(f.recordCount))
            && Field(df, FILE_SIZE) == Some(Long(f.fileSize))
            && Field(df, LOWER_BOUNDS) == Some(Union(1, Array(LowerValues(f.bounds))))
            && Field(df, UPPER_BOUNDS) == Some(Union(1, Array(UpperValues(f.bounds))))
  {
    hide FieldOf;
    var fs := DataFileFields(f);
    FirstLettersOfNames();
    FieldAt(fs, 1);
    FieldAt(fs, 4);
    FieldAt(fs, 5);
    FieldAt(fs, 6);
    FieldAt(fs, 7);
  }

  lemma FlatBounds(vs: seq<Value>)
    ensures Flat(Union(1, Array(vs))) == Array(vs)
  {
  }

  lemma DataFileBack(f: FileEntry)
    ensures ParseDataFile(Record(DataFileFields(f))) == Some(Kept(f))
  {
    hide Field, DataFileFields, ParseItems, Paired, ReadBack;
    DataFileFieldsBack(f);
    FlatBounds(LowerValues(f.bounds));
    FlatBounds(UpperValues(f.bounds));
    ItemsBack(LowerValues(f.bounds), Lows(f.bounds));
    ItemsBack(UpperValues(f.bounds), Highs(f.bounds));
    PairedReadBack(f.bounds);
  }

  lemma EntryBack(snapshot: i64, f: FileEntry)
    ensures ParseEntry(EntryValue(snapshot, f)) == Some([Kept(f)])
  {
    hide ParseDataFile, FieldOf, DataFileFields, Kept;
    FirstLettersOfNames();
    var fs := EntryValue(snapshot, f).fields;
    FieldAt(fs, 0);
    FieldAt(fs, 2);
    DataFileBack(f);
  }

  function AllKept(files: seq<FileEntry>): seq<FileEntry> {
    if files == [] then [] else [Kept(files[0])] + AllKept(files[1..])
  }

  lemma {:induction false} EntriesBack(snapshot: i64, files: seq<FileEntry>)
    ensures ParseEntries(ManifestRows(snapshot, files)) == Some(AllKept(files))
    decreases |files|
  {
    hide ParseEntry, EntryValue, Kept;
    if files != [] {
      EntryBack(snapshot, files[0]);
      EntriesBack(snapshot, files[1..]);
      assert ManifestRows(snapshot, files)[1..] == ManifestRows(snapshot, files[1..]);
    }
  }

  lemma RefBack(snapshot: i64, sequence: i64, m: ManifestRef)
    ensures Field(RefValue(snapshot, sequence, m), MANIFEST_PATH) == Some(String(m.path))
  {
    hide FieldOf;
    FieldAt(RefValue(snapshot, sequence, m).fields, 0);
  }

  // ---- what is written conforms ----

  /** A path that is a string, and lengths of vectors in memory. */
  ghost predicate Sized(f: FileEntry) {
    && TextFits(f.path) && |f.bounds| < TWO_63
    && forall i :: 0 <= i < |f.bounds| ==> |f.bounds[i].lo| < TWO_63 && |f.bounds[i].hi| < TWO_63
  }

  lemma KeyValueConforms(id: i32, b: seq<byte>)
    requires |b| < TWO_63
    ensures Conforms(KeyValue(id, b), KEY_VALUE_SCHEMA)
  {
  }

  lemma BoundsConform(f: FileEntry)
    requires Sized(f)
    ensures Conforms(Union(1, Array(LowerValues(f.bounds))), BOUNDS_SCHEMA)
    ensures Conforms(Union(1, Array(UpperValues(f.bounds))), BOUNDS_SCHEMA)
  {
    hide KeyValue;
    forall i | 0 <= i < |f.bounds|
      ensures Conforms(LowerValues(f.bounds)[i], KEY_VALUE_SCHEMA) && Conforms(UpperValues(f.bounds)[i], KEY_VALUE_SCHEMA)
    {
      KeyValueConforms(f.bounds[i].id, f.bounds[i].lo);
      KeyValueConforms(f.bounds[i].id, f.bounds[i].hi);
    }
    assert Conforms(Array(LowerValues(f.bounds)), SArray(KEY_VALUE_SCHEMA));
    assert Conforms(Array(UpperValues(f.bounds)), SArray(KEY_VALUE_SCHEMA));
  }

  /** A record of values that are plain, or known to conform, under the schema's names. */
  lemma RecordConforms(fs: seq<(Text, Value)>, name: Text, ss: seq<(Text, Schema)>)
    requires |fs| == |ss|
    requires forall i :: 0 <= i < |fs| ==> fs[i].0 == ss[i].0 && (PlainFits(fs[i].1, ss[i].1) || Conforms(fs[i].1, ss[i].1))
    ensures Conforms(Record(fs), SRecord(name, ss))
  {
    forall i | 0 <= i < |fs| ensures Conforms(fs[i].1, ss[i].1) {
      hide Conforms;
      if PlainFits(fs[i].1, ss[i].1) {
        PlainConforms(fs[i].1, ss[i].1);
      }
    }
  }

  lemma PlainConforms(v: Value, s: Schema)
    requires PlainFits(v, s)
    ensures Conforms(v, s)
  {
  }

  lemma DataFileConforms(f: FileEntry)
    requires Sized(f)
    ensures Conforms(Record(DataFileFields(f)), DATA_FILE_SCHEMA)
  {
    hide Conforms, Ascii, LowerValues, UpperValues, IsUtf8;
    AsciiIsText("BLITZCOL");
    BoundsConform(f);
    RecordConforms([], Ascii("r102"), []);
    RecordConforms(DataFileFields(f), Ascii("r2"), DATA_FILE_SCHEMA.fields);
  }

  lemma EntryConforms(snapshot: i64, f: FileEntry)
    requires Sized(f)
    ensures Conforms(EntryValue(snapshot, f), ENTRY_SCHEMA)
  {
    hide Conforms, Ascii, DataFileFields;
    DataFileConforms(f);
    LongConforms(snapshot);
    RecordConforms(EntryValue(snapshot, f).fields, Ascii("manifest_entry"), ENTRY_SCHEMA.fields);
  }

  lemma LongConforms(l: i64)
    ensures Conforms(Union(1, Long(l)), SUnion([SNull, SLong]))
  {
  }

  lemma RefConforms(snapshot: i64, sequence: i64, m: ManifestRef)
    requires TextFits(m.path)
    ensures Conforms(RefValue(snapshot, sequence, m), LIST_SCHEMA)
  {
    hide Conforms, Ascii, IsUtf8;
    RecordConforms(RefValue(snapshot, sequence, m).fields, Ascii("manifest_file"), LIST_SCHEMA.fields);
  }
}
