/** From a snapshot to its files. */
module ManifestPlan {
  /* Planning the files of a snapshot gives back the files its manifests were written with. */

  import opened Wrappers
  import opened Bytes
  import opened Avro
  import opened AvroSchema
  import opened AvroContainer
  import opened Bounds
  import opened Manifest
  import opened ManifestFields

  // ---- what the store holds ----

  ghost predicate AllSized(files: seq<FileEntry>) {
    forall i :: 0 <= i < |files| ==> Sized(files[i])
  }

  ghost predicate HoldsManifest(lib: Foreign, store: Store, path: Text, snapshot: i64, files: seq<FileEntry>) {
    && AllSized(files) && InMemory(lib, ENTRY_SCHEMA, ManifestRows(snapshot, files))
    && path in store && store[path] == Written(lib, ENTRY_SCHEMA, ManifestRows(snapshot, files))
  }

  ghost predicate HoldsList(lib: Foreign, store: Store, path: Text, snapshot: i64, sequence: i64, refs: seq<ManifestRef>) {
    && (forall i :: 0 <= i < |refs| ==> TextFits(refs[i].path))
    && InMemory(lib, LIST_SCHEMA, ListRows(snapshot, sequence, refs))
    && path in store && store[path] == Written(lib, LIST_SCHEMA, ListRows(snapshot, sequence, refs))
  }

  lemma LoadManifest(lib: Foreign, store: Store, path: Text, snapshot: i64, files: seq<FileEntry>)
    requires Invertible(lib) && HoldsManifest(lib, store, path, snapshot, files)
    ensures Load(lib, store, path) == Ok(ManifestRows(snapshot, files))
  {
    hide Conforms, EntryValue, InMemory, Written, Read, Invertible, Sized;
    forall i | 0 <= i < |files| ensures Conforms(ManifestRows(snapshot, files)[i], ENTRY_SCHEMA) {
      EntryConforms(snapshot, files[i]);
    }
    ReadOfWritten(lib, ENTRY_SCHEMA, ManifestRows(snapshot, files));
  }

  lemma LoadList(lib: Foreign, store: Store, path: Text, snapshot: i64, sequence: i64, refs: seq<ManifestRef>)
    requires Invertible(lib) && HoldsList(lib, store, path, snapshot, sequence, refs)
    ensures Load(lib, store, path) == Ok(ListRows(snapshot, sequence, refs))
  {
    hide Conforms, RefValue, InMemory, Written, Read, Invertible;
    forall i | 0 <= i < |refs| ensures Conforms(ListRows(snapshot, sequence, refs)[i], LIST_SCHEMA) {
      RefConforms(snapshot, sequence, refs[i]);
    }
    ReadOfWritten(lib, LIST_SCHEMA, ListRows(snapshot, sequence, refs));
  }

  // ---- the walk ----

  /** A manifest: how the list refers to it, and the files it was written with. */
  datatype Contents = Contents(ref: ManifestRef, snapshot: i64, files: seq<FileEntry>)

  function Refs(ms: seq<Contents>): (refs: seq<ManifestRef>)
    ensures |refs| == |ms| && forall i :: 0 <= i < |refs| ==> refs[i] == ms[i].ref
  {
    seq(|ms|, i requires 0 <= i < |ms| => ms[i].ref)
  }

  function FilesOf(ms: seq<Contents>): seq<FileEntry> {
    if ms == [] then [] else ms[0].files + FilesOf(ms[1..])
  }

  ghost predicate HoldsAll(lib: Foreign, store: Store, ms: seq<Contents>) {
    forall i :: 0 <= i < |ms| ==> HoldsManifest(lib, store, ms[i].ref.path, ms[i].snapshot, ms[i].files)
  }

  lemma PlanManifestBack(lib: Foreign, store: Store, snapshot: i64, sequence: i64, m: Contents)
    requires Invertible(lib) && HoldsManifest(lib, store, m.ref.path, m.snapshot, m.files)
    ensures PlanManifest(lib, store, RefValue(snapshot, sequence, m.ref)) == Ok(AllKept(m.files))
  {
    hide Field, RefValue, Load, ParseEntries, AllKept, HoldsManifest, ManifestRows;
    RefBack(snapshot, sequence, m.ref);
    StrOfString(m.ref.path);
    LoadManifest(lib, store, m.ref.path, m.snapshot, m.files);
    EntriesBack(m.snapshot, m.files);
  }

  lemma StrOfString(t: Text)
    ensures StrOf(String(t)) == Some(t)
  {
  }

  lemma {:induction false} AllKeptConcat(a: seq<FileEntry>, b: seq<FileEntry>)
    ensures AllKept(a + b) == AllKept(a) + AllKept(b)
    decreases |a|
  {
    hide Kept;
    if a == [] {
      assert a + b == b;
    } else {
      AllKeptConcat(a[1..], b);
      assert (a + b)[1..] == a[1..] + b;
    }
  }

  lemma {:induction false} PlanManifestsBack(lib: Foreign, store: Store, snapshot: i64, sequence: i64, ms: seq<Contents>)
    requires Invertible(lib) && HoldsAll(lib, store, ms)
    ensures PlanManifests(lib, store, ListRows(snapshot, sequence, Refs(ms))) == Ok(AllKept(FilesOf(ms)))
    decreases |ms|
  {
    hide RefValue, PlanManifest, Kept, HoldsManifest, Invertible;
    if ms != [] {
      PlanManifestBack(lib, store, snapshot, sequence, ms[0]);
      PlanManifestsBack(lib, store, snapshot, sequence, ms[1..]);
      assert ListRows(snapshot, sequence, Refs(ms))[1..] == ListRows(snapshot, sequence, Refs(ms[1..]));
      AllKeptConcat(ms[0].files, FilesOf(ms[1..]));
    }
  }

  /** Planning the current snapshot gives the files its manifests were written with, manifest by manifest and in
      order, each with the bounds that `ReadBack` says. */
  lemma PlanFilesBack(
      lib: Foreign, store: Store, current: i64, snapshots: seq<Snapshot>, list: Text, snapshot: i64, sequence: i64,
      ms: seq<Contents>)
    requires Invertible(lib) && ListOf(snapshots, current) == Some(list)
    requires HoldsList(lib, store, list, snapshot, sequence, Refs(ms)) && HoldsAll(lib, store, ms)
    ensures PlanFiles(lib, store, Some(current), snapshots) == Ok(AllKept(FilesOf(ms)))
  {
    hide Invertible, HoldsList, HoldsAll, Load, PlanManifests, ListOf, AllKept, ListRows;
    LoadList(lib, store, list, snapshot, sequence, Refs(ms));
    PlanManifestsBack(lib, store, snapshot, sequence, ms);
  }

  lemma {:induction false} AllKeptIff(files: seq<FileEntry>)
    ensures |AllKept(files)| == |files|
    ensures AllKept(files) == files <==> forall i :: 0 <= i < |files| ==> Kept(files[i]) == files[i]
    decreases |files|
  {
    hide Kept;
    if files != [] {
      AllKeptIff(files[1..]);
      assert AllKept(files)[0] == Kept(files[0]) && AllKept(files)[1..] == AllKept(files[1..]);
      if AllKept(files[1..]) == files[1..] && Kept(files[0]) == files[0] {
        assert AllKept(files) == [files[0]] + files[1..];
        forall i | 0 <= i < |files| ensures Kept(files[i]) == files[i] {
          assert i > 0 ==> files[i] == files[1..][i - 1];
        }
      }
      if forall i :: 0 <= i < |files| ==> Kept(files[i]) == files[i] {
        assert forall i :: 0 <= i < |files| - 1 ==> files[1..][i] == files[i + 1];
        assert Kept(files[0]) == files[0];
      }
    }
  }

  /** The walk is lossless exactly when bounds that share an id share their upper value. */
  lemma LosslessIff(
      lib: Foreign, store: Store, current: i64, snapshots: seq<Snapshot>, list: Text, snapshot: i64, sequence: i64,
      ms: seq<Contents>)
    requires Invertible(lib) && ListOf(snapshots, current) == Some(list)
    requires HoldsList(lib, store, list, snapshot, sequence, Refs(ms)) && HoldsAll(lib, store, ms)
    ensures PlanFiles(lib, store, Some(current), snapshots) == Ok(FilesOf(ms))
       <==> forall i :: 0 <= i < |FilesOf(ms)| ==> BoundsAgree(FilesOf(ms)[i])
  {
    hide Invertible, HoldsList, HoldsAll, PlanFiles, ListOf, AllKept, ListRows, FilesOf, BoundsAgree, Kept;
    PlanFilesBack(lib, store, current, snapshots, list, snapshot, sequence, ms);
    AllKeptIff(FilesOf(ms));
    forall i | 0 <= i < |FilesOf(ms)| ensures Kept(FilesOf(ms)[i]) == FilesOf(ms)[i] <==> BoundsAgree(FilesOf(ms)[i]) {
      KeptIff(FilesOf(ms)[i]);
    }
  }

  // ---- commits ----

  /** After a commit the current snapshot's list is the committed one exactly when no earlier snapshot has taken the
      id for another list: the first snapshot with the id is the one that is planned. */
  lemma {:induction false} CommittedList(snapshots: seq<Snapshot>, id: i64, list: Text)
    ensures ListOf(snapshots + [Snapshot(id, list)], id) == Some(list)
       <==> ListOf(snapshots, id) == None || ListOf(snapshots, id) == Some(list)
    decreases |snapshots|
  {
    if snapshots != [] && snapshots[0].id != id {
      CommittedList(snapshots[1..], id, list);
      assert (snapshots + [Snapshot(id, list)])[1..] == snapshots[1..] + [Snapshot(id, list)];
    } else if snapshots == [] {
      assert snapshots + [Snapshot(id, list)] == [Snapshot(id, list)];
    }
  }

  class TableMeta {
    var current: Option<i64>
    var snapshots: seq<Snapshot>
    var lastSequence: nat

    constructor ()
      ensures current == None && snapshots == [] && lastSequence == 0
    {
      current, snapshots, lastSequence := None, [], 0;
    }

    method CommitAppend(id: i64, list: Text)
      modifies this
      ensures snapshots == old(snapshots) + [Snapshot(id, list)] && current == Some(id)
      ensures lastSequence == old(lastSequence) + 1
      ensures ListOf(snapshots, id) == Some(list)
         <==> old(ListOf(snapshots, id)) == None || old(ListOf(snapshots, id)) == Some(list)
    {
      CommittedList(snapshots, id, list);
      lastSequence := lastSequence + 1;
      snapshots := snapshots + [Snapshot(id, list)];
      current := Some(id);
    }

    method Plan(lib: Foreign, store: Store) returns (r: Result<seq<FileEntry>, Failure>)
      ensures r == PlanFiles(lib, store, current, snapshots)
    {
      hide Load, PlanManifest, ListOf;
      if current == None {
        return Ok([]);
      }
      var list := ListOf(snapshots, current.value);
      if list == None {
        return Err(Panics);
      }
      var manifests := Load(lib, store, list.value);
      if manifests.Err? {
        return Err(manifests.error);
      }
      r := WalkManifests(lib, store, manifests.value);
    }
  }

  // ---- the loops ----

  method PairBounds(lows: seq<(i32, seq<byte>)>, highs: seq<(i32, seq<byte>)>) returns (bounds: seq<Bound>)
    ensures bounds == Paired(lows, highs)
  {
    bounds := [];
    assert lows[0..] == lows;
    for i := 0 to |lows|
      invariant bounds + Paired(lows[i..], highs) == Paired(lows, highs)
    {
      assert lows[i..][0] == lows[i] && lows[i..][1..] == lows[i + 1..];
      var hi := HighOf(highs, lows[i].0);
      if hi.Some? {
        bounds := bounds + [Bound(lows[i].0, lows[i].1, hi.value)];
      }
    }
  }

  method ReadDataFile(df: Value) returns (r: Option<FileEntry>)
    ensures r == ParseDataFile(df)
    ensures r.Some? ==> ReadsFile(df, r.value)
  {
    hide Field, Paired, ReadsFile;
    if ParseDataFile(df).Some? {
      FileIsRead(df);
    }
    var lows := ParseBounds(Field(df, LOWER_BOUNDS));
    var highs := ParseBounds(Field(df, UPPER_BOUNDS));
    var path, size, count := Field(df, FILE_PATH), Field(df, FILE_SIZE), Field(df, RECORD_COUNT);
    if lows == None || highs == None || path == None || size == None || count == None || StrOf(path.value) == None {
      return None;
    }
    var bounds := PairBounds(lows.value, highs.value);
    r := Some(FileEntry(StrOf(path.value).value, LongOf(size.value), LongOf(count.value), bounds));
  }

  method WalkEntries(entries: seq<Value>) returns (r: Option<seq<FileEntry>>)
    ensures r == ParseEntries(entries)
    ensures r == None <==> exists k :: 0 <= k < |entries| && Broken(entries[k])
    ensures r.Some? ==> exists ks :: Picks(entries, ks) && FilesFrom(entries, ks, r.value)
  {
    hide ParseDataFile, Field, Picks, FilesFrom, Broken;
    BrokenIff(entries);
    if ParseEntries(entries).Some? {
      var ks := LiveEntries(entries);
    }
    var out: seq<FileEntry> := [];
    assert entries[0..] == entries;
    OptionOntoNext(out, [], ParseEntries(entries));
    for i := 0 to |entries|
      invariant OptionOnto(out, ParseEntries(entries[i..])) == ParseEntries(entries)
    {
      ghost var rest := entries[i..];
      assert rest[0] == entries[i] && rest[1..] == entries[i + 1..];
      var status := Field(entries[i], STATUS);
      if status == None {
        return None;
      }
      var files: seq<FileEntry> := [];
      if Flat(status.value) != Int(2) {
        var df := Field(entries[i], DATA_FILE);
        if df == None {
          return None;
        }
        var f := ReadDataFile(df.value);
        if f == None {
          return None;
        }
        files := [f.value];
      }
      OptionOntoNext(out, files, ParseEntries(rest[1..]));
      out := out + files;
    }
    OptionOntoNext(out, [], None);
    r := Some(out);
  }

  method WalkManifests(lib: Foreign, store: Store, manifests: seq<Value>) returns (r: Result<seq<FileEntry>, Failure>)
    ensures r == PlanManifests(lib, store, manifests)
  {
    hide Load, Field, ParseEntries;
    var out: seq<FileEntry> := [];
    assert manifests[0..] == manifests;
    ResultOntoNext(out, [], PlanManifests(lib, store, manifests));
    for i := 0 to |manifests|
      invariant ResultOnto(out, PlanManifests(lib, store, manifests[i..])) == PlanManifests(lib, store, manifests)
    {
      ghost var rest := manifests[i..];
      assert rest[0] == manifests[i] && rest[1..] == manifests[i + 1..];
      var path := Field(manifests[i], MANIFEST_PATH);
      if path == None || StrOf(path.value) == None {
        return Err(Panics);
      }
      var entries := Load(lib, store, StrOf(path.value).value);
      if entries.Err? {
        return Err(entries.error);
      }
      var files := WalkEntries(entries.value);
      if files == None {
        return Err(Panics);
      }
      ResultOntoNext(out, files.value, PlanManifests(lib, store, rest[1..]));
      out := out + files.value;
    }
    ResultOntoNext(out, [], Ok([]));
    r := Ok(out);
  }

  // ---- the writers ----

  method WriteManifest(lib: Foreign, store: Store, path: Text, snapshot: i64, files: seq<FileEntry>)
    returns (after: Store, length: nat)
    requires AllSized(files) && InMemory(lib, ENTRY_SCHEMA, ManifestRows(snapshot, files))
    ensures path in after && after == store[path := after[path]] && length == |after[path]|
    ensures HoldsManifest(lib, after, path, snapshot, files)
    ensures Invertible(lib) ==>
      var rows := Load(lib, after, path);
      rows.Ok? && |rows.value| == |files| && forall i :: 0 <= i < |files| ==> EntryShown(rows.value[i], snapshot, files[i])
  {
    hide EntryShown, Conforms, EntryValue, InMemory, Written, Read, Invertible, Sized, Load;
    forall i | 0 <= i < |files| ensures Conforms(ManifestRows(snapshot, files)[i], ENTRY_SCHEMA) {
      EntryConforms(snapshot, files[i]);
    }
    var bytes := WriteContainer(lib, ENTRY_SCHEMA, ManifestRows(snapshot, files));
    after, length := store[path := bytes], |bytes|;
    if Invertible(lib) {
      LoadManifest(lib, after, path, snapshot, files);
      ManifestShown(snapshot, files);
    }
  }

  method WriteManifestList(
      lib: Foreign, store: Store, path: Text, snapshot: i64, sequence: i64, refs: seq<ManifestRef>)
    returns (after: Store)
    requires forall i :: 0 <= i < |refs| ==> TextFits(refs[i].path)
    requires InMemory(lib, LIST_SCHEMA, ListRows(snapshot, sequence, refs))
    ensures path in after && after == store[path := after[path]]
    ensures HoldsList(lib, after, path, snapshot, sequence, refs)
    ensures Invertible(lib) ==>
      var rows := Load(lib, after, path);
      rows.Ok? && |rows.value| == |refs| && forall i :: 0 <= i < |refs| ==> RefShown(rows.value[i], snapshot, sequence, refs[i])
  {
    hide RefShown, Conforms, RefValue, InMemory, Written, Read, Invertible, Load;
    forall i | 0 <= i < |refs| ensures Conforms(ListRows(snapshot, sequence, refs)[i], LIST_SCHEMA) {
      RefConforms(snapshot, sequence, refs[i]);
    }
    var bytes := WriteContainer(lib, LIST_SCHEMA, ListRows(snapshot, sequence, refs));
    after := store[path := bytes];
    if Invertible(lib) {
      LoadList(lib, after, path, snapshot, sequence, refs);
      ListShown(snapshot, sequence, refs);
    }
  }
}
