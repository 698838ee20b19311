/** The writer of BlitzCol files, whose files hold what was written. */
module BlitzWriter {
  /* Whatever row groups are written, the finished file opens to the returned metadata and every chunk holds the
      column it was written from. */

  import opened Wrappers
  import opened Bytes
  import opened Cursor
  import opened BlitzFooter
  import opened BlitzChunks
  import opened Pages
  import Lz4

  /** The chunks of a row group hold its columns, once the file and the dictionaries stay within their fields. */
  ghost predicate GroupHolds(file: seq<byte>, rg: RowGroupMeta, cols: seq<Column>) {
    && |rg.chunks| == |cols| > 0 && rg.rows == Rows(cols[0]) % TWO_64
    && forall c :: 0 <= c < |cols| && |file| < TWO_64 && Fits(cols[c]) ==> ChunkHolds(file, rg.chunks[c], cols[c])
  }

  ghost predicate GroupsHold(file: seq<byte>, rgs: seq<RowGroupMeta>, written: seq<seq<Column>>) {
    && |rgs| == |written|
    && forall g :: 0 <= g < |rgs| ==> GroupHolds(file, rgs[g], written[g])
  }

  lemma GroupKept(file: seq<byte>, more: seq<byte>, rg: RowGroupMeta, cols: seq<Column>)
    requires GroupHolds(file, rg, cols)
    ensures GroupHolds(file + more, rg, cols)
  {
    hide ChunkHolds, Fits;
    forall c | 0 <= c < |cols| && |file + more| < TWO_64 && Fits(cols[c])
      ensures ChunkHolds(file + more, rg.chunks[c], cols[c])
    {
      ChunkKept(file, more, rg.chunks[c], cols[c]);
    }
  }

  lemma GroupsKept(file: seq<byte>, more: seq<byte>, rgs: seq<RowGroupMeta>, written: seq<seq<Column>>)
    requires GroupsHold(file, rgs, written)
    ensures GroupsHold(file + more, rgs, written)
  {
    hide GroupHolds;
    forall g | 0 <= g < |rgs| ensures GroupHolds(file + more, rgs[g], written[g]) {
      GroupKept(file, more, rgs[g], written[g]);
    }
  }

  method ZoneOf(vals: seq<i64>) returns (min: i64, max: i64)
    ensures Zone(vals, min, max)
  {
    min, max := I64_MAX, I64_MIN;
    for i := 0 to |vals|
      invariant Zone(vals[..i], min, max)
    {
      assert Zone([vals[i]], vals[i], vals[i]);
      ZoneConcat(vals[..i], [vals[i]], min, max, vals[i], vals[i]);
      assert vals[..i + 1] == vals[..i] + [vals[i]];
      min, max := MinI(min, vals[i]), MaxI(max, vals[i]);
    }
    assert vals[..|vals|] == vals;
  }

  lemma DictStep(strs: seq<Text>, i: nat)
    requires i < |strs|
    ensures var d := Dict(strs[..i]); Dict(strs[..i + 1]) == if strs[i] in d then d else d + [strs[i]]
  {
    assert strs[..i + 1][..i] == strs[..i];
  }

  lemma {:induction false} IndexUnique(d: seq<Text>, s: Text, i: nat)
    requires (forall i, j :: 0 <= i < j < |d| ==> d[i] != d[j]) && i < |d| && d[i] == s
    ensures IndexOf(d, s) == i
  {
    if d[0] != s {
      IndexUnique(d[1..], s, i - 1);
    }
  }

  lemma {:induction false} CodesGrow(d: seq<Text>, d': seq<Text>, strs: seq<Text>)
    requires d <= d' && (forall s :: s in strs ==> s in d)
    requires forall i, j :: 0 <= i < j < |d'| ==> d'[i] != d'[j]
    ensures Codes(d', strs) == Codes(d, strs)
    decreases |strs|
  {
    if strs != [] {
      IndexUnique(d', strs[0], IndexOf(d, strs[0]));
      CodesGrow(d, d', strs[1..]);
    }
  }

  lemma {:induction false} CodesSnoc(d: seq<Text>, strs: seq<Text>, s: Text)
    requires (forall t :: t in strs ==> t in d) && s in d
    ensures Codes(d, strs + [s]) == Codes(d, strs) + [IndexOf(d, s)]
    decreases |strs|
  {
    if strs == [] {
      assert Codes(d, [s]) == [IndexOf(d, s)] + Codes(d, []);
    } else {
      assert (strs + [s])[1..] == strs[1..] + [s];
      CodesSnoc(d, strs[1..], s);
    }
  }

  ghost predicate Numbers(ids: map<Text, nat>, dict: seq<Text>) {
    && (forall s :: s in ids <==> s in dict)
    && forall s :: s in ids ==> ids[s] < |dict| && dict[ids[s]] == s
  }

  lemma OldString(strs: seq<Text>, i: nat, ids: map<Text, nat>)
    requires i < |strs| && Numbers(ids, Dict(strs[..i])) && strs[i] in ids
    ensures Dict(strs[..i + 1]) == Dict(strs[..i])
    ensures Codes(Dict(strs[..i + 1]), strs[..i + 1]) == Codes(Dict(strs[..i]), strs[..i]) + [ids[strs[i]]]
  {
    hide Dict, Codes, IndexOf;
    var d := Dict(strs[..i]);
    DictStep(strs, i);
    IndexUnique(d, strs[i], ids[strs[i]]);
    CodesSnoc(d, strs[..i], strs[i]);
    assert strs[..i + 1] == strs[..i] + [strs[i]];
  }

  lemma NewString(strs: seq<Text>, i: nat, ids: map<Text, nat>)
    requires i < |strs| && Numbers(ids, Dict(strs[..i])) && strs[i] !in ids
    ensures var d := Dict(strs[..i]);
            && Dict(strs[..i + 1]) == d + [strs[i]]
            && Numbers(ids[strs[i] := |d|], d + [strs[i]])
            && Codes(Dict(strs[..i + 1]), strs[..i + 1]) == Codes(d, strs[..i]) + [|d|]
  {
    hide Dict, Codes, IndexOf;
    var d := Dict(strs[..i]);
    DictStep(strs, i);
    IndexUnique(d + [strs[i]], strs[i], |d|);
    CodesGrow(d, d + [strs[i]], strs[..i]);
    CodesSnoc(d + [strs[i]], strs[..i], strs[i]);
    assert strs[..i + 1] == strs[..i] + [strs[i]];
  }

  /** The chunk-local dictionary: strings get numbers in order of first occurrence. */
  method BuildDict(strs: seq<Text>) returns (dict: seq<Text>, codes: seq<nat>)
    ensures dict == Dict(strs) && codes == Codes(dict, strs)
  {
    hide Dict, Codes, Numbers;
    dict, codes := [], [];
    var ids: map<Text, nat> := map[];
    NoStrings(strs);
    for i := 0 to |strs|
      invariant dict == Dict(strs[..i]) && codes == Codes(Dict(strs[..i]), strs[..i]) && Numbers(ids, dict)
    {
      if strs[i] !in ids {
        NewString(strs, i, ids);
        ids := ids[strs[i] := |dict|];
        dict := dict + [strs[i]];
      } else {
        OldString(strs, i, ids);
      }
      codes := codes + [ids[strs[i]]];
    }
    assert strs[..|strs|] == strs;
  }

  lemma NoStrings(strs: seq<Text>)
    ensures Dict(strs[..0]) == [] && Codes([], strs[..0]) == [] && Numbers(map[], [])
  {
  }

  /** First and last of the sorted dictionary. */
  method TextZoneOf(dict: seq<Text>) returns (min: Text, max: Text)
    ensures TextZone(dict, min, max)
  {
    if dict == [] {
      return [], [];
    }
    min, max := dict[0], dict[0];
    LessIrreflexive(dict[0]);
    for i := 1 to |dict|
      invariant min in dict && max in dict
      invariant forall s :: s in dict[..i] ==> !Less(s, min) && !Less(max, s)
    {
      var s := dict[i];
      ghost var min', max' := min, max;
      if Less(s, min) {
        min := s;
      }
      if Less(max, s) {
        max := s;
      }
      Bounds(dict[..i], s, min', max', min, max);
      assert dict[..i + 1] == dict[..i] + [s];
    }
    assert dict[..|dict|] == dict;
  }

  lemma LessIrreflexive(s: Text)
    ensures !Less(s, s)
  {
  }

  lemma Bounds(seen: seq<Text>, s: Text, min': Text, max': Text, min: Text, max: Text)
    requires forall t :: t in seen ==> !Less(t, min') && !Less(max', t)
    requires min == (if Less(s, min') then s else min') && max == (if Less(max', s) then s else max')
    ensures forall t :: t in seen + [s] ==> !Less(t, min) && !Less(max, t)
  {
    LessIrreflexive(s);
    forall t | t in seen ensures !Less(t, min) && !Less(max, t) {
      if Less(s, min') {
        LessAsymmetric(s, min');
        LessTransitive(t, min', s);
      }
      if Less(max', s) {
        LessAsymmetric(max', s);
        LessTransitive(s, max', t);
      }
    }
  }

  lemma TextZoneOfDict(strs: seq<Text>, min: Text, max: Text)
    requires TextZone(Dict(strs), min, max)
    ensures TextZone(strs, min, max)
  {
    hide Less;
    if strs != [] {
      assert strs[0] in Dict(strs);
    } else {
      assert Dict(strs) == [];
    }
  }

  // ---- one page after another ----

  ghost predicate IntPagesSoFar(file: seq<byte>, pages: seq<PageMeta>, vals: seq<i64>) {
    && |pages| <= PageCount(|vals|)
    && forall k :: 0 <= k < |pages| && |file| < TWO_64 ==> IntPage(file, pages[k], PageOf(vals, k))
  }

  ghost predicate CodePagesSoFar(file: seq<byte>, pages: seq<PageMeta>, codes: seq<nat>) {
    && |pages| <= PageCount(|codes|)
    && forall k :: 0 <= k < |pages| && |file| < TWO_64 ==> CodePage(file, pages[k], PageOf(codes, k))
  }

  lemma IntPageAdded(file: seq<byte>, enc: seq<byte>, pages: seq<PageMeta>, p: PageMeta, vals: seq<i64>)
    requires IntPagesSoFar(file, pages, vals) && |pages| < PageCount(|vals|)
    requires |file + enc| < TWO_64 ==> IntPage(file + enc, p, PageOf(vals, |pages|))
    ensures IntPagesSoFar(file + enc, pages + [p], vals)
  {
    hide IntPage, PageOf;
    forall k | 0 <= k < |pages + [p]| && |file + enc| < TWO_64 ensures IntPage(file + enc, (pages + [p])[k], PageOf(vals, k)) {
      if k < |pages| {
        IntPageKept(file, enc, pages[k], PageOf(vals, k));
      }
    }
  }

  lemma CodePageAdded(file: seq<byte>, enc: seq<byte>, pages: seq<PageMeta>, p: PageMeta, codes: seq<nat>)
    requires CodePagesSoFar(file, pages, codes) && |pages| < PageCount(|codes|)
    requires |file + enc| < TWO_64 ==> CodePage(file + enc, p, PageOf(codes, |pages|))
    ensures CodePagesSoFar(file + enc, pages + [p], codes)
  {
    hide CodePage, PageOf;
    forall k | 0 <= k < |pages + [p]| && |file + enc| < TWO_64 ensures CodePage(file + enc, (pages + [p])[k], PageOf(codes, k)) {
      if k < |pages| {
        CodePageKept(file, enc, pages[k], PageOf(codes, k));
      }
    }
  }

  /** The zone of a chunk grows page by page. */
  lemma ZoneAdded(vals: seq<i64>, k: nat, min: i64, max: i64, pmin: i64, pmax: i64)
    requires Zone(vals[..Start(|vals|, k)], min, max) && Zone(PageOf(vals, k), pmin, pmax)
    ensures Zone(vals[..Start(|vals|, k + 1)], MinI(min, pmin), MaxI(max, pmax))
  {
    hide Zone;
    PageJoins(vals, k);
    ZoneConcat(vals[..Start(|vals|, k)], PageOf(vals, k), min, max, pmin, pmax);
  }

  /** Code pages always fit: at most 32768 bytes before compression. */
  lemma CodeBytesSize(codes: seq<nat>)
    ensures |All(U32, codes)| == 4 * |codes|
    decreases |codes|
  {
    if codes != [] {
      CodeBytesSize(codes[1..]);
    }
  }

  method EncodeCodes(codes: seq<nat>) returns (enc: seq<byte>)
    requires |codes| <= PAGE_ROWS
    ensures Lz4.Decompressed(enc) == Ok(All(U32, codes)) && |enc| < TWO_32
  {
    var raw := PutAll([], U32, codes);
    CodeBytesSize(codes);
    assert raw == All(U32, codes);
    ghost var ss, tail;
    enc, ss, tail := Lz4.Compress(raw);
  }

  method EncodeDict(dict: seq<Text>) returns (enc: seq<byte>)
    ensures var n := |DictRaw(dict)|;
            n + n / 255 + 6 < TWO_32 ==> Lz4.Decompressed(enc) == Ok(DictRaw(dict)) && |enc| < TWO_32
  {
    var raw := U32(|dict|);
    raw := PutAll(raw, WS, dict);
    assert raw == DictRaw(dict);
    ghost var ss, tail;
    enc, ss, tail := Lz4.Compress(raw);
  }

  lemma AppendedSlice(file: seq<byte>, enc: seq<byte>)
    ensures (file + enc)[|file|..|file| + |enc|] == enc
  {
  }

  lemma Extends(before: seq<byte>, after: seq<byte>)
    requires before <= after
    ensures before + after[|before|..] == after
  {
  }

  lemma NoPages(file: seq<byte>, vals: seq<i64>, codes: seq<nat>)
    ensures IntPagesSoFar(file, [], vals) && CodePagesSoFar(file, [], codes)
    ensures Start(|vals|, 0) == 0 && Zone(vals[..0], I64_MAX, I64_MIN)
  {
  }

  lemma IntPagesDone(file: seq<byte>, pages: seq<PageMeta>, vals: seq<i64>)
    requires IntPagesSoFar(file, pages, vals) && |pages| == PageCount(|vals|)
    ensures |file| < TWO_64 ==> IntPages(file, pages, vals)
  {
  }

  lemma CodePagesDone(file: seq<byte>, pages: seq<PageMeta>, codes: seq<nat>)
    requires CodePagesSoFar(file, pages, codes) && |pages| == PageCount(|codes|)
    ensures |file| < TWO_64 ==> CodePages(file, pages, codes)
  {
  }

  lemma DictWritten(base: seq<byte>, enc: seq<byte>, c: ChunkMeta, dict: seq<Text>)
    requires |DictRaw(dict)| < TWO_32 && |enc| < TWO_32 && Lz4.Decompressed(enc) == Ok(DictRaw(dict))
    requires c.dictOff == |base| && c.dictLen == |enc| && c.dictCount == |dict| % TWO_32
    ensures DictHolds(base + enc, c, dict)
  {
    hide DictRaw, ReadDict, Lz4.Decompressed;
    AppendedSlice(base, enc);
    ReadDictOf(dict);
  }

  lemma TextChunkDone(base: seq<byte>, enc: seq<byte>, more: seq<byte>, c: ChunkMeta, strs: seq<Text>)
    requires |DictRaw(Dict(strs))| < TWO_32 && |enc| < TWO_32 && Lz4.Decompressed(enc) == Ok(DictRaw(Dict(strs)))
    requires c.dtype == Utf8 && TextZone(strs, c.minS, c.maxS) && CodePages(base + enc + more, c.pages, Codes(Dict(strs), strs))
    requires c.dictOff == |base| && c.dictLen == |enc| && c.dictCount == |Dict(strs)| % TWO_32
    ensures ChunkHolds(base + enc + more, c, Texts(strs))
  {
    hide Dict, Codes, TextZone, CodePages, DictHolds, DictRaw;
    DictWritten(base, enc, c, Dict(strs));
    DictKept(base + enc, more, c, Dict(strs));
  }

  ghost predicate ChunksSoFar(file: seq<byte>, chunks: seq<ChunkMeta>, cols: seq<Column>) {
    && |chunks| == |cols|
    && forall c :: 0 <= c < |cols| && |file| < TWO_64 && Fits(cols[c]) ==> ChunkHolds(file, chunks[c], cols[c])
  }

  lemma ChunkAdded(file: seq<byte>, more: seq<byte>, chunks: seq<ChunkMeta>, c: ChunkMeta, cols: seq<Column>, col: Column)
    requires ChunksSoFar(file, chunks, cols)
    requires |file + more| < TWO_64 && Fits(col) ==> ChunkHolds(file + more, c, col)
    ensures ChunksSoFar(file + more, chunks + [c], cols + [col])
  {
    hide ChunkHolds, Fits;
    forall i | 0 <= i < |cols + [col]| && |file + more| < TWO_64 && Fits((cols + [col])[i])
      ensures ChunkHolds(file + more, (chunks + [c])[i], (cols + [col])[i])
    {
      if i < |cols| {
        ChunkKept(file, more, chunks[i], cols[i]);
      }
    }
  }

  lemma GroupDone(file: seq<byte>, chunks: seq<ChunkMeta>, cols: seq<Column>)
    requires ChunksSoFar(file, chunks, cols) && |cols| > 0
    ensures GroupHolds(file, RowGroupMeta(Rows(cols[0]) % TWO_64, chunks), cols)
  {
  }

  lemma ChunksPerGroup(file: seq<byte>, rgs: seq<RowGroupMeta>, written: seq<seq<Column>>, n: nat)
    requires GroupsHold(file, rgs, written) && forall g :: 0 <= g < |written| ==> |written[g]| == n
    ensures forall rg :: rg in rgs ==> |rg.chunks| == n
  {
    hide ChunkHolds, Fits;
  }

  class Writer {
    var file: seq<byte>
    var pos: u64
    var schema: seq<Field>
    var rowgroups: seq<RowGroupMeta>
    ghost var written: seq<seq<Column>>

    ghost predicate Valid()
      reads this
    {
      && pos == |file| % TWO_64
      && GroupsHold(file, rowgroups, written)
      && forall g :: 0 <= g < |written| ==> |written[g]| == |schema|
    }

    constructor (schema: seq<Field>)
      ensures Valid() && this.schema == schema && rowgroups == [] && written == [] && file == MAGIC + U32(1)
    {
      file, pos := MAGIC + U32(1), 8;
      this.schema := schema;
      rowgroups := [];
      written := [];
    }

    method Append(b: seq<byte>)
      requires pos == |file| % TWO_64
      modifies `file, `pos
      ensures file == old(file) + b && pos == |file| % TWO_64
    {
      file := file + b;
      pos := (pos + |b|) % TWO_64;
    }

    method WriteIntPage(vals: seq<i64>) returns (p: PageMeta)
      requires pos == |file| % TWO_64 && |vals| <= PAGE_ROWS
      modifies `file, `pos
      ensures pos == |file| % TWO_64 && old(file) <= file
      ensures |file| < TWO_64 ==> IntPage(file, p, vals)
      ensures Zone(vals, p.min, p.max)
    {
      hide Zone, DecodePage;
      var min, max := ZoneOf(vals);
      var enc := EncodePage(vals);
      p := PageMeta(pos, |enc| % TWO_32, |vals| % TWO_32, min, max);
      AppendedSlice(file, enc);
      Append(enc);
    }

    method WriteCodePage(codes: seq<nat>) returns (p: PageMeta)
      requires pos == |file| % TWO_64 && |codes| <= PAGE_ROWS
      modifies `file, `pos
      ensures pos == |file| % TWO_64 && old(file) <= file
      ensures |file| < TWO_64 ==> CodePage(file, p, codes)
      ensures p.min == p.max == 0
    {
      hide Lz4.Decompressed, All;
      var enc := EncodeCodes(codes);
      p := PageMeta(pos, |enc| % TWO_32, |codes| % TWO_32, 0, 0);
      AppendedSlice(file, enc);
      Append(enc);
    }

    method WriteInts(vals: seq<i64>) returns (c: ChunkMeta)
      requires pos == |file| % TWO_64
      modifies `file, `pos
      ensures pos == |file| % TWO_64 && old(file) <= file
      ensures |file| < TWO_64 ==> ChunkHolds(file, c, Ints(vals))
      ensures c.minS == c.maxS == [] && c.dictOff == c.dictLen == c.dictCount == 0
    {
      hide Zone, PageOf, Start, IntPage, IntPagesSoFar;
      var pages: seq<PageMeta> := [];
      var min, max := I64_MAX, I64_MIN;
      NoPages(file, vals, []);
      for k := 0 to PageCount(|vals|)
        invariant pos == |file| % TWO_64 && old(file) <= file
        invariant |pages| == k && IntPagesSoFar(file, pages, vals) && Zone(vals[..Start(|vals|, k)], min, max)
      {
        ghost var before := file;
        PageJoins(vals, k);
        var p := WriteIntPage(PageOf(vals, k));
        Extends(before, file);
        IntPageAdded(before, file[|before|..], pages, p, vals);
        ZoneAdded(vals, k, min, max, p.min, p.max);
        min, max := MinI(min, p.min), MaxI(max, p.max);
        pages := pages + [p];
      }
      AllPages(|vals|);
      assert vals[..|vals|] == vals;
      IntPagesDone(file, pages, vals);
      c := ChunkMeta(Int64, min, max, [], [], 0, 0, 0, pages);
    }

    method WriteCodes(codes: seq<nat>) returns (pages: seq<PageMeta>)
      requires pos == |file| % TWO_64
      modifies `file, `pos
      ensures pos == |file| % TWO_64 && old(file) <= file
      ensures |file| < TWO_64 ==> CodePages(file, pages, codes)
    {
      hide PageOf, CodePage, CodePagesSoFar;
      pages := [];
      NoPages(file, [], codes);
      for k := 0 to PageCount(|codes|)
        invariant pos == |file| % TWO_64 && old(file) <= file
        invariant |pages| == k && CodePagesSoFar(file, pages, codes)
      {
        ghost var before := file;
        PageJoins(codes, k);
        var p := WriteCodePage(PageOf(codes, k));
        Extends(before, file);
        CodePageAdded(before, file[|before|..], pages, p, codes);
        pages := pages + [p];
      }
      CodePagesDone(file, pages, codes);
    }

    method WriteTexts(strs: seq<Text>) returns (c: ChunkMeta)
      requires pos == |file| % TWO_64
      modifies `file, `pos
      ensures pos == |file| % TWO_64 && old(file) <= file
      ensures |file| < TWO_64 && Fits(Texts(strs)) ==> ChunkHolds(file, c, Texts(strs))
      ensures c.minI == c.maxI == 0
    {
      hide Lz4.Decompressed, All, Dict, Codes, TextZone, CodePages, DictHolds, DictRaw, ChunkHolds;
      var dict, codes := BuildDict(strs);
      var minS, maxS := TextZoneOf(dict);
      TextZoneOfDict(strs, minS, maxS);
      var enc := EncodeDict(dict);
      var dictOff := pos;
      Append(enc);
      ghost var withDict := file;
      var pages := WriteCodes(codes);
      c := ChunkMeta(Utf8, 0, 0, minS, maxS, dictOff, |enc| % TWO_32, |dict| % TWO_32, pages);
      Extends(withDict, file);
      if |file| < TWO_64 && Fits(Texts(strs)) {
        TextChunkDone(old(file), enc, file[|withDict|..], c, strs);
      }
    }

    /** `write_rowgroup`. One column per field of the schema, of the field's type, and at least one. */
    method WriteRowgroup(cols: seq<Column>)
      requires Valid() && |cols| == |schema| > 0
      requires forall c :: 0 <= c < |cols| ==> TypeOf(cols[c]) == schema[c].dtype
      modifies `file, `pos, `rowgroups, `written
      ensures Valid() && old(file) <= file && written == old(written) + [cols]
      ensures |rowgroups| == |old(rowgroups)| + 1 && rowgroups[..|old(rowgroups)|] == old(rowgroups)
    {
      hide ChunkHolds, Fits, GroupHolds;
      var chunks: seq<ChunkMeta> := [];
      for i := 0 to |cols|
        modifies `file, `pos
        invariant pos == |file| % TWO_64 && old(file) <= file
        invariant ChunksSoFar(file, chunks, cols[..i])
      {
        ghost var before := file;
        var c;
        match cols[i] {
          case Ints(vals) => c := WriteInts(vals);
          case Texts(strs) => c := WriteTexts(strs);
        }
        Extends(before, file);
        ChunkAdded(before, file[|before|..], chunks, c, cols[..i], cols[i]);
        assert cols[..i + 1] == cols[..i] + [cols[i]];
        chunks := chunks + [c];
      }
      assert cols[..|cols|] == cols;
      Extends(old(file), file);
      GroupsKept(old(file), file[|old(file)|..], rowgroups, written);
      GroupDone(file, chunks, cols);
      rowgroups := rowgroups + [RowGroupMeta(Rows(cols[0]) % TWO_64, chunks)];
      written := written + [cols];
    }

    /** `finish`. What it returns is what opening the finished file gives, and the file still holds every column. */
    method Finish() returns (meta: FileMeta)
      requires Valid()
      modifies `file
      ensures file == Finished(old(file), schema, rowgroups)
      ensures meta.schema == schema && meta.rowgroups == rowgroups && GroupsHold(file, rowgroups, written)
      ensures |FooterBytes(schema, rowgroups)| < TWO_32 && |file| < TWO_64 ==> Open(file) == Some(meta)
    {
      hide FooterBytes, Open, ParseFooter, GroupHolds;
      var f := WriteFooter(schema, rowgroups);
      GroupsKept(file, f + U32(|f|) + MAGIC, rowgroups, written);
      ChunksPerGroup(file, rowgroups, written, |schema|);
      assert file + (f + U32(|f|) + MAGIC) == Finished(file, schema, rowgroups);
      if |f| < TWO_32 && |file| + |f| + 8 < TWO_64 {
        OpenFinished(file, schema, rowgroups);
      }
      meta := FileMeta(schema, rowgroups, (pos + |f| + 8) % TWO_64);
      file := file + f;
      file := file + U32(|f|);
      file := file + MAGIC;
    }
  }
}
