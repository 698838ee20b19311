/** What a manifest's rows say. */
module ManifestFields {
  /* The columns of the rows that the writers leave, looked up by their names in the Iceberg specification. */

  import opened Wrappers
  import opened Bytes
  import opened Avro
  import opened AvroSchema
  import opened Bounds
  import opened Manifest

  ghost predicate Shows(v: Value, name: string, x: Value) {
    Field(v, Ascii(name)) == Some(x)
  }

  /** A row of a manifest list: one added manifest, with its path, length and rows. */
  ghost predicate RefShown(v: Value, snapshot: i64, sequence: i64, m: ManifestRef) {
    && Shows(v, "manifest_path", String(m.path)) && Shows(v, "manifest_length", Long(m.length))
    && Shows(v, "partition_spec_id", Int(0)) && Shows(v, "content", Int(0))
    && Shows(v, "sequence_number", Long(sequence)) && Shows(v, "min_sequence_number", Long(sequence))
    && Shows(v, "added_snapshot_id", Long(snapshot))
    && Shows(v, "added_files_count", Int(1)) && Shows(v, "existing_files_count", Int(0)) && Shows(v, "deleted_files_count", Int(0))
    && Shows(v, "added_rows_count", Long(m.rows)) && Shows(v, "existing_rows_count", Long(0)) && Shows(v, "deleted_rows_count", Long(0))
  }

  ghost predicate BoundShown(v: Value, id: i32, b: seq<byte>) {
    Shows(v, "key", Int(id)) && Shows(v, "value", Bytes(b))
  }

  /** A data file: its path, sizes and bounds, lower and upper ones in separate lists. */
  ghost predicate FileShown(df: Value, f: FileEntry) {
    && Shows(df, "content", Int(0)) && Shows(df, "file_path", String(f.path)) && Shows(df, "file_format", String(Ascii("BLITZCOL")))
    && Shows(df, "record_count", Long(f.recordCount)) && Shows(df, "file_size_in_bytes", Long(f.fileSize))
    && exists lows, highs ::
         && Shows(df, "lower_bounds", Union(1, Array(lows))) && Shows(df, "upper_bounds", Union(1, Array(highs)))
         && BoundsShown(lows, highs, f.bounds)
  }

  ghost predicate BoundsShown(lows: seq<Value>, highs: seq<Value>, bs: seq<Bound>) {
    |lows| == |highs| == |bs|
    && forall i :: 0 <= i < |bs| ==> BoundShown(lows[i], bs[i].id, bs[i].lo) && BoundShown(highs[i], bs[i].id, bs[i].hi)
  }

  /** A row of a manifest: a file added by the snapshot. */
  ghost predicate EntryShown(v: Value, snapshot: i64, f: FileEntry) {
    && Shows(v, "status", Int(1)) && Shows(v, "snapshot_id", Union(1, Long(snapshot)))
    && exists df :: Shows(v, "data_file", df) && FileShown(df, f)
  }

  // ---- proofs ----

  ghost predicate Named(fs: seq<(Text, Value)>, names: seq<string>) {
    |fs| == |names| && forall i :: 0 <= i < |fs| ==> fs[i].0 == Ascii(names[i])
  }

  /** Names that differ in length, or in their letter at `at`. */
  ghost predicate Distinct(names: seq<string>, at: nat) {
    forall i, j :: 0 <= i < j < |names| ==>
      |names[i]| != |names[j]| || (at < |names[i]| && names[i][at] as int % 128 != names[j][at] as int % 128)
  }

  lemma ShowsAt(fs: seq<(Text, Value)>, names: seq<string>, at: nat, i: nat)
    requires Named(fs, names) && Distinct(names, at) && i < |fs|
    ensures Shows(Record(fs), names[i], fs[i].1)
  {
    forall j | 0 <= j < i ensures fs[j].0 != fs[i].0 {
      assert |names[j]| == |names[i]| ==> Ascii(names[j])[at] != Ascii(names[i])[at];
    }
    FieldAt(fs, i);
  }

  const REF_NAMES := ["manifest_path", "manifest_length", "partition_spec_id", "content", "sequence_number", "min_sequence_number",
    "added_snapshot_id", "added_files_count", "existing_files_count", "deleted_files_count", "added_rows_count",
    "existing_rows_count", "deleted_rows_count"]

  lemma RefDistinct()
    ensures Distinct(REF_NAMES, 6)
  {
  }

  lemma RefNamed(snapshot: i64, sequence: i64, m: ManifestRef)
    ensures Named(RefValue(snapshot, sequence, m).fields, REF_NAMES)
  {
    hide Ascii;
  }

  lemma RefIsShown(snapshot: i64, sequence: i64, m: ManifestRef)
    ensures RefShown(RefValue(snapshot, sequence, m), snapshot, sequence, m)
  {
    hide Shows, Ascii, Named, Distinct;
    var fs := RefValue(snapshot, sequence, m).fields;
    RefDistinct();
    RefNamed(snapshot, sequence, m);
    ShowsAt(fs, REF_NAMES, 6, 0);
    ShowsAt(fs, REF_NAMES, 6, 1);
    ShowsAt(fs, REF_NAMES, 6, 2);
    ShowsAt(fs, REF_NAMES, 6, 3);
    ShowsAt(fs, REF_NAMES, 6, 4);
    ShowsAt(fs, REF_NAMES, 6, 5);
    ShowsAt(fs, REF_NAMES, 6, 6);
    ShowsAt(fs, REF_NAMES, 6, 7);
    ShowsAt(fs, REF_NAMES, 6, 8);
    ShowsAt(fs, REF_NAMES, 6, 9);
    ShowsAt(fs, REF_NAMES, 6, 10);
    ShowsAt(fs, REF_NAMES, 6, 11);
    ShowsAt(fs, REF_NAMES, 6, 12);
  }

  const FILE_NAMES := ["content", "file_path", "file_format", "partition", "record_count", "file_size_in_bytes", "lower_bounds", "upper_bounds"]
  const ENTRY_NAMES := ["status", "snapshot_id", "data_file"]
  const BOUND_NAMES := ["key", "value"]

  lemma BoundIsShown(id: i32, b: seq<byte>)
    ensures BoundShown(KeyValue(id, b), id, b)
  {
    hide Shows, Ascii;
    var fs := KeyValue(id, b).fields;
    ShowsAt(fs, BOUND_NAMES, 0, 0);
    ShowsAt(fs, BOUND_NAMES, 0, 1);
  }

  lemma FileNamed(f: FileEntry)
    ensures Named(DataFileFields(f), FILE_NAMES) && Distinct(FILE_NAMES, 0)
  {
    hide Ascii, LowerValues, UpperValues;
  }

  lemma FileIsShown(f: FileEntry)
    ensures FileShown(Record(DataFileFields(f)), f)
  {
    hide Shows, Ascii, Named, Distinct, BoundsShown, LowerValues, UpperValues;
    var fs := DataFileFields(f);
    FileNamed(f);
    ShowsAt(fs, FILE_NAMES, 0, 0);
    ShowsAt(fs, FILE_NAMES, 0, 1);
    ShowsAt(fs, FILE_NAMES, 0, 2);
    ShowsAt(fs, FILE_NAMES, 0, 4);
    ShowsAt(fs, FILE_NAMES, 0, 5);
    ShowsAt(fs, FILE_NAMES, 0, 6);
    ShowsAt(fs, FILE_NAMES, 0, 7);
    BoundsAreShown(f.bounds);
    var lows, highs := LowerValues(f.bounds), UpperValues(f.bounds);
    assert Shows(Record(fs), "lower_bounds", Union(1, Array(lows))) && Shows(Record(fs), "upper_bounds", Union(1, Array(highs)));
  }

  lemma BoundsAreShown(bs: seq<Bound>)
    ensures BoundsShown(LowerValues(bs), UpperValues(bs), bs)
  {
    hide BoundShown, KeyValue;
    forall id, b ensures BoundShown(KeyValue(id, b), id, b) {
      BoundIsShown(id, b);
    }
  }

  lemma EntryIsShown(snapshot: i64, f: FileEntry)
    ensures EntryShown(EntryValue(snapshot, f), snapshot, f)
  {
    hide Shows, Ascii, DataFileFields, FileShown;
    var fs := EntryValue(snapshot, f).fields;
    ShowsAt(fs, ENTRY_NAMES, 0, 0);
    ShowsAt(fs, ENTRY_NAMES, 0, 1);
    ShowsAt(fs, ENTRY_NAMES, 0, 2);
    FileIsShown(f);
  }

  /** The rows of a manifest list, and of a manifest, one for each manifest or file. */
  lemma ListShown(snapshot: i64, sequence: i64, refs: seq<ManifestRef>)
    ensures forall i :: 0 <= i < |refs| ==> RefShown(ListRows(snapshot, sequence, refs)[i], snapshot, sequence, refs[i])
  {
    hide RefShown, RefValue;
    forall i | 0 <= i < |refs| ensures RefShown(ListRows(snapshot, sequence, refs)[i], snapshot, sequence, refs[i]) {
      RefIsShown(snapshot, sequence, refs[i]);
    }
  }

  lemma ManifestShown(snapshot: i64, files: seq<FileEntry>)
    ensures forall i :: 0 <= i < |files| ==> EntryShown(ManifestRows(snapshot, files)[i], snapshot, files[i])
  {
    hide EntryShown, EntryValue;
    forall i | 0 <= i < |files| ensures EntryShown(ManifestRows(snapshot, files)[i], snapshot, files[i]) {
      EntryIsShown(snapshot, files[i]);
    }
  }

  // ---- which entries of any manifest give files ----

  /** The entry has a status, and it is not 2, which marks deleted files. */
  ghost predicate Live(e: Value) {
    Field(e, Ascii("status")).Some? && Flat(Field(e, Ascii("status")).value) != Int(2)
  }

  /** The entry cannot be read: no status, or live without a data file that parses. */
  ghost predicate Broken(e: Value) {
    || Field(e, Ascii("status")) == None
    || (Live(e) && (Field(e, Ascii("data_file")) == None || ParseDataFile(Field(e, Ascii("data_file")).value) == None))
  }

  /** The positions of the live entries, in order. */
  ghost predicate Picks(es: seq<Value>, ks: seq<nat>) {
    && (forall i, j :: 0 <= i < j < |ks| ==> ks[i] < ks[j])
    && (forall i :: 0 <= i < |ks| ==> ks[i] < |es| && Live(es[ks[i]]))
    && (forall k :: 0 <= k < |es| && Live(es[k]) ==> k in ks)
  }

  ghost predicate GivesFile(e: Value, f: FileEntry) {
    Field(e, Ascii("data_file")).Some? && ParseDataFile(Field(e, Ascii("data_file")).value) == Some(f)
  }

  ghost predicate FilesFrom(es: seq<Value>, ks: seq<nat>, files: seq<FileEntry>) {
    |files| == |ks| && forall i :: 0 <= i < |ks| ==> ks[i] < |es| && GivesFile(es[ks[i]], files[i])
  }

  lemma {:induction false} BrokenIff(es: seq<Value>)
    ensures ParseEntries(es) == None <==> exists k :: 0 <= k < |es| && Broken(es[k])
    decreases |es|
  {
    hide ParseDataFile, Field;
    if es != [] {
      BrokenIff(es[1..]);
      if k :| 0 <= k < |es| && Broken(es[k]) {
        assert k > 0 ==> es[1..][k - 1] == es[k];
      }
    }
  }

  /** A manifest gives the files of its live entries, in order, and no others. */
  lemma {:induction false} LiveEntries(es: seq<Value>) returns (ks: seq<nat>)
    requires ParseEntries(es).Some?
    ensures Picks(es, ks) && FilesFrom(es, ks, ParseEntries(es).value)
    decreases |es|
  {
    hide Picks, FilesFrom, Field, ParseDataFile;
    if es == [] {
      ks := [];
      NoEntries();
    } else {
      var rest := LiveEntries(es[1..]);
      ks := WithFirst(Live(es[0]), rest);
      PicksMore(es, rest);
      FilesMore(es, rest);
    }
  }

  lemma NoEntries()
    ensures Picks([], []) && FilesFrom([], [], [])
  {
  }

  function Shifted(ks: seq<nat>): (r: seq<nat>)
    ensures |r| == |ks| && forall i :: 0 <= i < |ks| ==> r[i] == ks[i] + 1
  {
    seq(|ks|, i requires 0 <= i < |ks| => ks[i] + 1)
  }

  /** The position of the first entry, if it is live, before the shifted positions of the others. */
  function WithFirst(first: bool, rest: seq<nat>): (ks: seq<nat>)
    ensures |ks| == |rest| + if first then 1 else 0
    ensures forall i :: 0 <= i < |ks| ==> ks[i] == if first then (if i == 0 then 0 else rest[i - 1] + 1) else rest[i] + 1
  {
    (if first then [0] else []) + Shifted(rest)
  }

  lemma PicksMore(es: seq<Value>, rest: seq<nat>)
    requires es != [] && Picks(es[1..], rest)
    ensures Picks(es, WithFirst(Live(es[0]), rest))
  {
    hide Live;
    var ks := WithFirst(Live(es[0]), rest);
    forall k | 0 <= k < |es| && Live(es[k]) ensures k in ks {
      if k == 0 {
        assert ks[0] == 0;
      } else {
        AlsoPicked(es, rest, k);
      }
    }
    forall i | 0 <= i < |ks| ensures ks[i] < |es| && Live(es[ks[i]]) {
      assert ks[i] > 0 ==> es[ks[i]] == es[1..][ks[i] - 1];
    }
  }

  lemma AlsoPicked(es: seq<Value>, rest: seq<nat>, k: nat)
    requires es != [] && Picks(es[1..], rest) && 0 < k < |es| && Live(es[k])
    ensures k in WithFirst(Live(es[0]), rest)
  {
    hide Live;
    assert es[1..][k - 1] == es[k];
    var i :| 0 <= i < |rest| && rest[i] == k - 1;
    var ks := WithFirst(Live(es[0]), rest);
    assert ks[if Live(es[0]) then i + 1 else i] == k;
  }

  lemma FilesMore(es: seq<Value>, rest: seq<nat>)
    requires es != [] && ParseEntries(es).Some? && ParseEntries(es[1..]).Some? && FilesFrom(es[1..], rest, ParseEntries(es[1..]).value)
    ensures FilesFrom(es, WithFirst(Live(es[0]), rest), ParseEntries(es).value)
  {
    hide Field, ParseDataFile;
  }

  // ---- what the file of any data file value is ----

  /** A column read as a long: through unions, an int counts as one, and anything else as zero. */
  ghost predicate ReadsLong(v: Value, name: string, n: i64) {
    Field(v, Ascii(name)).Some? &&
    match Flat(Field(v, Ascii(name)).value)
    case Long(l) => n == l
    case Int(i) => n == i
    case _ => n == 0
  }

  ghost predicate ReadsText(v: Value, name: string, t: Text) {
    Field(v, Ascii(name)).Some? && Flat(Field(v, Ascii(name)).value) == String(t)
  }

  /** An id and the bytes of a bound; an id of another type counts as zero. */
  ghost predicate ReadsBound(v: Value, id: i32, b: seq<byte>) {
    && Field(v, Ascii("key")).Some? && Field(v, Ascii("value")).Some? && Flat(Field(v, Ascii("value")).value) == Bytes(b)
    && id == match Flat(Field(v, Ascii("key")).value) case Int(i) => i case _ => 0
  }

  /** Some item of a list of bounds gives the id and the bytes. */
  ghost predicate ListsBound(v: Value, name: string, id: i32, b: seq<byte>) {
    && Field(v, Ascii(name)).Some? && Flat(Field(v, Ascii(name)).value).Array?
    && exists i :: 0 <= i < |Flat(Field(v, Ascii(name)).value).items| && ReadsBound(Flat(Field(v, Ascii(name)).value).items[i], id, b)
  }

  ghost predicate ReadsFile(df: Value, f: FileEntry) {
    && ReadsText(df, "file_path", f.path) && ReadsLong(df, "file_size_in_bytes", f.fileSize) && ReadsLong(df, "record_count", f.recordCount)
    && forall b :: b in f.bounds ==> ListsBound(df, "lower_bounds", b.id, b.lo) && ListsBound(df, "upper_bounds", b.id, b.hi)
  }

  lemma {:induction false} ItemsRead(items: seq<Value>, x: (i32, seq<byte>))
    requires ParseItems(items).Some? && x in ParseItems(items).value
    ensures exists i :: 0 <= i < |items| && ReadsBound(items[i], x.0, x.1)
    decreases |items|
  {
    hide Field;
    if x == ParseBound(items[0]).value {
      assert ReadsBound(items[0], x.0, x.1);
    } else {
      ItemsRead(items[1..], x);
      var i :| 0 <= i < |items[1..]| && ReadsBound(items[1..][i], x.0, x.1);
      assert items[i + 1] == items[1..][i];
    }
  }

  lemma {:induction false} PairedFrom(lows: seq<(i32, seq<byte>)>, highs: seq<(i32, seq<byte>)>, b: Bound)
    requires b in Paired(lows, highs)
    ensures (b.id, b.lo) in lows && (b.id, b.hi) in highs
    decreases |lows|
  {
    HighFrom(highs, lows[0].0);
    if b !in (match HighOf(highs, lows[0].0) case None => [] case Some(hi) => [Bound(lows[0].0, lows[0].1, hi)]) {
      PairedFrom(lows[1..], highs, b);
    }
  }

  lemma {:induction false} HighFrom(highs: seq<(i32, seq<byte>)>, id: i32)
    ensures HighOf(highs, id).Some? ==> (id, HighOf(highs, id).value) in highs
    decreases |highs|
  {
    if highs != [] && highs[0].0 != id {
      HighFrom(highs[1..], id);
    }
  }

  /** The file of any data file value has what the value's columns say. */
  lemma FileIsRead(df: Value)
    requires ParseDataFile(df).Some?
    ensures ReadsFile(df, ParseDataFile(df).value)
  {
    hide Field, Paired, ParseItems, ReadsBound;
    var lows, highs := ParseBounds(Field(df, LOWER_BOUNDS)).value, ParseBounds(Field(df, UPPER_BOUNDS)).value;
    forall b | b in Paired(lows, highs) ensures ListsBound(df, "lower_bounds", b.id, b.lo) && ListsBound(df, "upper_bounds", b.id, b.hi) {
      PairedFrom(lows, highs, b);
      ItemsRead(Flat(Field(df, LOWER_BOUNDS).value).items, (b.id, b.lo));
      ItemsRead(Flat(Field(df, UPPER_BOUNDS).value).items, (b.id, b.hi));
    }
  }
}
