/** The metadata of a BlitzCol file, the footer that carries it, and the loops that write and read it. */
module BlitzFooter {
  import opened Wrappers
  import opened Bytes
  import opened Cursor

  datatype DataType = Int64 | Utf8

  datatype Field = Field(name: Text, dtype: DataType)

  datatype PageMeta = PageMeta(offset: u64, compLen: u32, rows: u32, min: i64, max: i64)

  datatype ChunkMeta = ChunkMeta(
    dtype: DataType, minI: i64, maxI: i64, minS: Text, maxS: Text,
    dictOff: u64, dictLen: u32, dictCount: u32, pages: seq<PageMeta>)

  datatype RowGroupMeta = RowGroupMeta(rows: u64, chunks: seq<ChunkMeta>)

  datatype FileMeta = FileMeta(schema: seq<Field>, rowgroups: seq<RowGroupMeta>, fileSize: u64)

  const MAGIC: seq<byte> := [0x42, 0x4C, 0x5A, 0x43]

  // ---- writing ----

  function TypeByte(t: DataType): (b: seq<byte>)
    ensures |b| == 1 && b[0] <= 1
  {
    [if t == Int64 then 0 else 1]
  }

  function FieldBytes(f: Field): seq<byte> {
    WS(f.name) + TypeByte(f.dtype)
  }

  function PageBytes(p: PageMeta): seq<byte> {
    W64(p.offset) + (U32(p.compLen) + (U32(p.rows) + (I64Bytes(p.min) + I64Bytes(p.max))))
  }

  function PagesBytes(pages: seq<PageMeta>): seq<byte> {
    U32(|pages|) + All(PageBytes, pages)
  }

  function DictBytes(c: ChunkMeta): seq<byte> {
    W64(c.dictOff) + (U32(c.dictLen) + U32(c.dictCount))
  }

  function ZoneBytes(c: ChunkMeta): seq<byte> {
    I64Bytes(c.minI) + (I64Bytes(c.maxI) + (WS(c.minS) + WS(c.maxS)))
  }

  function ChunkBytes(c: ChunkMeta): seq<byte> {
    TypeByte(c.dtype) + (ZoneBytes(c) + (DictBytes(c) + PagesBytes(c.pages)))
  }

  function RowGroupBytes(rg: RowGroupMeta): seq<byte> {
    W64(rg.rows) + All(ChunkBytes, rg.chunks)
  }

  function FooterBytes(schema: seq<Field>, rgs: seq<RowGroupMeta>): seq<byte> {
    U32(|schema|) + (All(FieldBytes, schema) + (U32(|rgs|) + All(RowGroupBytes, rgs)))
  }

  // ---- reading ----

  function ReadType(buf: seq<byte>, pos: nat): Option<(DataType, nat)> {
    if pos >= |buf| then None else Some((if buf[pos] == 0 then Int64 else Utf8, pos + 1))
  }

  function ReadField(buf: seq<byte>, pos: nat): Option<(Field, nat)> {
    var (name, p1) :- RS(buf, pos);
    var (dtype, p2) :- ReadType(buf, p1);
    Some((Field(name, dtype), p2))
  }

  function ReadPageMeta(buf: seq<byte>, pos: nat): Option<(PageMeta, nat)> {
    var (offset, p1) :- R64(buf, pos);
    var (compLen, p2) :- R32(buf, p1);
    var (rows, p3) :- R32(buf, p2);
    var (min, p4) :- RI64(buf, p3);
    var (max, p5) :- RI64(buf, p4);
    Some((PageMeta(offset, compLen, rows, min, max), p5))
  }

  function ReadPages(buf: seq<byte>, pos: nat): Option<(seq<PageMeta>, nat)> {
    var (n, p1) :- R32(buf, pos);
    Times(ReadPageMeta, n, buf, p1)
  }

  function ReadZone(buf: seq<byte>, pos: nat): Option<((i64, i64, Text, Text), nat)> {
    var (minI, p1) :- RI64(buf, pos);
    var (maxI, p2) :- RI64(buf, p1);
    var (minS, p3) :- RS(buf, p2);
    var (maxS, p4) :- RS(buf, p3);
    Some(((minI, maxI, minS, maxS), p4))
  }

  function ReadDictMeta(buf: seq<byte>, pos: nat): Option<((u64, u32, u32), nat)> {
    var (off, p1) :- R64(buf, pos);
    var (len, p2) :- R32(buf, p1);
    var (count, p3) :- R32(buf, p2);
    Some(((off, len, count), p3))
  }

  function ReadChunkMeta(buf: seq<byte>, pos: nat): Option<(ChunkMeta, nat)> {
    var (dtype, p1) :- ReadType(buf, pos);
    var (zone, p2) :- ReadZone(buf, p1);
    var (dict, p3) :- ReadDictMeta(buf, p2);
    var (pages, p4) :- ReadPages(buf, p3);
    Some((ChunkMeta(dtype, zone.0, zone.1, zone.2, zone.3, dict.0, dict.1, dict.2, pages), p4))
  }

  /** A row group has one chunk for each of the `cols` columns of the schema; their number is not stored. */
  function ReadRowGroup(cols: nat, buf: seq<byte>, pos: nat): Option<(RowGroupMeta, nat)> {
    var (rows, p1) :- R64(buf, pos);
    var (chunks, p2) :- Times(ReadChunkMeta, cols, buf, p1);
    Some((RowGroupMeta(rows, chunks), p2))
  }

  function RowGroupParser(cols: nat): Parser<RowGroupMeta> {
    (buf: seq<byte>, pos: nat) => ReadRowGroup(cols, buf, pos)
  }

  function ParseFooter(f: seq<byte>): Option<(seq<Field>, seq<RowGroupMeta>)> {
    var (cols, p1) :- R32(f, 0);
    var (schema, p2) :- Times(ReadField, cols, f, p1);
    var (n, p3) :- R32(f, p2);
    var (rgs, _) :- Times(RowGroupParser(cols), n, f, p3);
    Some((schema, rgs))
  }

  /** `Reader::open`: the footer is found from the last eight bytes; a bad magic or a short file is a panic. */
  function Open(file: seq<byte>): Option<FileMeta> {
    var size := |file|;
    if size < 8 || size >= TWO_64 || file[size - 4..] != MAGIC then None else
    var len := FromLE(file[size - 8..size - 4]);
    if len > size - 8 then None else
    var (schema, rgs) :- ParseFooter(file[size - 8 - len..size - 8]);
    Some(FileMeta(schema, rgs, size))
  }

  // ---- each part is read back ----

  lemma ReadTypeAt(t: DataType, buf: seq<byte>, pos: nat)
    requires At(buf, pos, TypeByte(t))
    ensures ReadType(buf, pos) == Some((t, pos + 1))
  {
    assert buf[pos] == buf[pos..pos + 1][0];
  }

  lemma ReadFieldAt(f: Field, buf: seq<byte>, pos: nat)
    requires |FieldBytes(f)| < TWO_32 && At(buf, pos, FieldBytes(f))
    ensures ReadField(buf, pos) == Some((f, pos + |FieldBytes(f)|))
  {
    hide At, ReadType, RS;
    AtConcat(buf, pos, WS(f.name), TypeByte(f.dtype));
    RSAt(buf, pos, f.name);
    ReadTypeAt(f.dtype, buf, pos + |WS(f.name)|);
  }

  lemma ReadPageMetaAt(p: PageMeta, buf: seq<byte>, pos: nat)
    requires At(buf, pos, PageBytes(p))
    ensures ReadPageMeta(buf, pos) == Some((p, pos + |PageBytes(p)|))
  {
    hide At, R64, R32, RI64, U32, I64Bytes, LE;
    AtConcat(buf, pos, W64(p.offset), U32(p.compLen) + (U32(p.rows) + (I64Bytes(p.min) + I64Bytes(p.max))));
    AtConcat(buf, pos + 8, U32(p.compLen), U32(p.rows) + (I64Bytes(p.min) + I64Bytes(p.max)));
    AtConcat(buf, pos + 12, U32(p.rows), I64Bytes(p.min) + I64Bytes(p.max));
    AtConcat(buf, pos + 16, I64Bytes(p.min), I64Bytes(p.max));
    R64At(buf, pos, p.offset);
    R32At(buf, pos + 8, p.compLen);
    R32At(buf, pos + 12, p.rows);
    RI64At(buf, pos + 16, p.min);
    RI64At(buf, pos + 24, p.max);
  }

  lemma ReadPagesAt(pages: seq<PageMeta>, buf: seq<byte>, pos: nat)
    requires |pages| < TWO_32 && At(buf, pos, PagesBytes(pages))
    ensures ReadPages(buf, pos) == Some((pages, pos + |PagesBytes(pages)|))
  {
    hide At, R32, U32, ReadPageMeta, PageBytes, Times, All;
    forall p, b, k: nat | At(b, k, PageBytes(p)) ensures ReadPageMeta(b, k) == Some((p, k + |PageBytes(p)|)) {
      ReadPageMetaAt(p, b, k);
    }
    AtConcat(buf, pos, U32(|pages|), All(PageBytes, pages));
    R32At(buf, pos, |pages|);
    TimesOfAll(ReadPageMeta, PageBytes, _ => true, pages, buf, pos + 4);
  }

  lemma ReadZoneAt(c: ChunkMeta, buf: seq<byte>, pos: nat)
    requires |ZoneBytes(c)| < TWO_32 && At(buf, pos, ZoneBytes(c))
    ensures ReadZone(buf, pos) == Some(((c.minI, c.maxI, c.minS, c.maxS), pos + |ZoneBytes(c)|))
  {
    hide At, RI64, RS, I64Bytes, U32;
    AtConcat(buf, pos, I64Bytes(c.minI), I64Bytes(c.maxI) + (WS(c.minS) + WS(c.maxS)));
    AtConcat(buf, pos + 8, I64Bytes(c.maxI), WS(c.minS) + WS(c.maxS));
    AtConcat(buf, pos + 16, WS(c.minS), WS(c.maxS));
    RI64At(buf, pos, c.minI);
    RI64At(buf, pos + 8, c.maxI);
    RSAt(buf, pos + 16, c.minS);
    RSAt(buf, pos + 16 + |WS(c.minS)|, c.maxS);
  }

  lemma ReadDictMetaAt(c: ChunkMeta, buf: seq<byte>, pos: nat)
    requires At(buf, pos, DictBytes(c))
    ensures ReadDictMeta(buf, pos) == Some(((c.dictOff, c.dictLen, c.dictCount), pos + |DictBytes(c)|))
  {
    hide At, R64, R32, LE, U32;
    AtConcat(buf, pos, W64(c.dictOff), U32(c.dictLen) + U32(c.dictCount));
    AtConcat(buf, pos + 8, U32(c.dictLen), U32(c.dictCount));
    R64At(buf, pos, c.dictOff);
    R32At(buf, pos + 8, c.dictLen);
    R32At(buf, pos + 12, c.dictCount);
  }

  lemma ReadChunkMetaAt(c: ChunkMeta, buf: seq<byte>, pos: nat)
    requires |ChunkBytes(c)| < TWO_32 && At(buf, pos, ChunkBytes(c))
    ensures ReadChunkMeta(buf, pos) == Some((c, pos + |ChunkBytes(c)|))
  {
    hide At, ReadType, ReadZone, ReadDictMeta, ReadPages, ZoneBytes, DictBytes, PageBytes, All, U32;
    AtConcat(buf, pos, TypeByte(c.dtype), ZoneBytes(c) + (DictBytes(c) + PagesBytes(c.pages)));
    var p1 := pos + 1;
    AtConcat(buf, p1, ZoneBytes(c), DictBytes(c) + PagesBytes(c.pages));
    var p2 := p1 + |ZoneBytes(c)|;
    AtConcat(buf, p2, DictBytes(c), PagesBytes(c.pages));
    AllPagesSize(c.pages);
    ReadTypeAt(c.dtype, buf, pos);
    ReadZoneAt(c, buf, p1);
    ReadDictMetaAt(c, buf, p2);
    ReadPagesAt(c.pages, buf, p2 + |DictBytes(c)|);
  }

  lemma AllPagesSize(pages: seq<PageMeta>)
    ensures |All(PageBytes, pages)| >= |pages|
  {
    AllSize(PageBytes, pages);
  }

  lemma ReadRowGroupAt(cols: nat, rg: RowGroupMeta, buf: seq<byte>, pos: nat)
    requires |rg.chunks| == cols && |RowGroupBytes(rg)| < TWO_32 && At(buf, pos, RowGroupBytes(rg))
    ensures ReadRowGroup(cols, buf, pos) == Some((rg, pos + |RowGroupBytes(rg)|))
  {
    hide At, R64, LE, ReadChunkMeta, ChunkBytes, Times, All;
    var ok := (c: ChunkMeta) => |ChunkBytes(c)| < TWO_32;
    forall c, b, k: nat | ok(c) && At(b, k, ChunkBytes(c)) ensures ReadChunkMeta(b, k) == Some((c, k + |ChunkBytes(c)|)) {
      ReadChunkMetaAt(c, b, k);
    }
    AtConcat(buf, pos, W64(rg.rows), All(ChunkBytes, rg.chunks));
    R64At(buf, pos, rg.rows);
    AllChunksSize(rg.chunks);
    TimesOfAll(ReadChunkMeta, ChunkBytes, ok, rg.chunks, buf, pos + 8);
  }

  lemma AllChunksSize(chunks: seq<ChunkMeta>)
    ensures forall c :: c in chunks ==> |ChunkBytes(c)| <= |All(ChunkBytes, chunks)|
  {
    AllSize(ChunkBytes, chunks);
  }

  lemma AllFieldsSize(schema: seq<Field>)
    ensures |All(FieldBytes, schema)| >= |schema|
    ensures forall f :: f in schema ==> |FieldBytes(f)| <= |All(FieldBytes, schema)|
  {
    AllSize(FieldBytes, schema);
  }

  lemma AllRowGroupsSize(rgs: seq<RowGroupMeta>)
    ensures |All(RowGroupBytes, rgs)| >= |rgs|
    ensures forall rg :: rg in rgs ==> |RowGroupBytes(rg)| <= |All(RowGroupBytes, rgs)|
  {
    AllSize(RowGroupBytes, rgs);
  }

  lemma ReadSchemaAt(schema: seq<Field>, buf: seq<byte>, pos: nat)
    requires |All(FieldBytes, schema)| < TWO_32 && At(buf, pos, All(FieldBytes, schema))
    ensures Times(ReadField, |schema|, buf, pos) == Some((schema, pos + |All(FieldBytes, schema)|))
    ensures |schema| < TWO_32
  {
    hide At, ReadField, FieldBytes, Times, All;
    AllFieldsSize(schema);
    var ok := (f: Field) => |FieldBytes(f)| < TWO_32;
    forall f, b, k: nat | ok(f) && At(b, k, FieldBytes(f)) ensures ReadField(b, k) == Some((f, k + |FieldBytes(f)|)) {
      ReadFieldAt(f, b, k);
    }
    TimesOfAll(ReadField, FieldBytes, ok, schema, buf, pos);
  }

  lemma ReadRowGroupsAt(cols: nat, rgs: seq<RowGroupMeta>, buf: seq<byte>, pos: nat)
    requires forall rg :: rg in rgs ==> |rg.chunks| == cols
    requires |All(RowGroupBytes, rgs)| < TWO_32 && At(buf, pos, All(RowGroupBytes, rgs))
    ensures Times(RowGroupParser(cols), |rgs|, buf, pos) == Some((rgs, pos + |All(RowGroupBytes, rgs)|))
    ensures |rgs| < TWO_32
  {
    hide At, ReadRowGroup, RowGroupBytes, Times, All;
    AllRowGroupsSize(rgs);
    var ok := (rg: RowGroupMeta) => |rg.chunks| == cols && |RowGroupBytes(rg)| < TWO_32;
    var p := RowGroupParser(cols);
    forall rg, b, k: nat | ok(rg) && At(b, k, RowGroupBytes(rg)) ensures p(b, k) == Some((rg, k + |RowGroupBytes(rg)|)) {
      ReadRowGroupAt(cols, rg, b, k);
    }
    TimesOfAll(p, RowGroupBytes, ok, rgs, buf, pos);
  }

  /** The footer is read back whenever its length fits the 32 bits it is stored in. */
  lemma FooterRoundTrip(schema: seq<Field>, rgs: seq<RowGroupMeta>)
    requires forall rg :: rg in rgs ==> |rg.chunks| == |schema|
    requires |FooterBytes(schema, rgs)| < TWO_32
    ensures ParseFooter(FooterBytes(schema, rgs)) == Some((schema, rgs))
  {
    hide At, R32, U32, ReadField, FieldBytes, RowGroupParser, RowGroupBytes, Times, All;
    var f := FooterBytes(schema, rgs);
    Whole(f);
    AtConcat(f, 0, U32(|schema|), All(FieldBytes, schema) + (U32(|rgs|) + All(RowGroupBytes, rgs)));
    AtConcat(f, 4, All(FieldBytes, schema), U32(|rgs|) + All(RowGroupBytes, rgs));
    var p2 := 4 + |All(FieldBytes, schema)|;
    AtConcat(f, p2, U32(|rgs|), All(RowGroupBytes, rgs));
    ReadSchemaAt(schema, f, 4);
    ReadRowGroupsAt(|schema|, rgs, f, p2 + 4);
    R32At(f, 0, |schema|);
    R32At(f, p2, |rgs|);
  }

  lemma Whole(f: seq<byte>)
    ensures At(f, 0, f)
  {
    assert f[0..|f|] == f;
  }

  /** A finished file: pages, footer, its length, the magic. */
  function Finished(body: seq<byte>, schema: seq<Field>, rgs: seq<RowGroupMeta>): seq<byte> {
    var f := FooterBytes(schema, rgs);
    body + f + U32(|f|) + MAGIC
  }

  /** Opening a finished file gives back the metadata it was finished with. */
  lemma OpenFinished(body: seq<byte>, schema: seq<Field>, rgs: seq<RowGroupMeta>)
    requires forall rg :: rg in rgs ==> |rg.chunks| == |schema|
    requires |FooterBytes(schema, rgs)| < TWO_32 && |body| + |FooterBytes(schema, rgs)| + 8 < TWO_64
    ensures Open(Finished(body, schema, rgs)) == Some(FileMeta(schema, rgs, |body| + |FooterBytes(schema, rgs)| + 8))
  {
    hide ParseFooter, FooterBytes, LE, FromLE;
    var f, file := FooterBytes(schema, rgs), Finished(body, schema, rgs);
    U32RoundTrip(|f|);
    FooterRoundTrip(schema, rgs);
    assert file[|file| - 4..] == MAGIC && file[|file| - 8..|file| - 4] == U32(|f|);
    assert file[|body|..|body| + |f|] == f;
  }

  // ---- the loops ----

  method PutRowGroup(out: seq<byte>, rg: RowGroupMeta) returns (r: seq<byte>)
    ensures r == out + RowGroupBytes(rg)
  {
    hide W64, ChunkBytes, All;
    r := out + W64(rg.rows);
    r := PutAll(r, ChunkBytes, rg.chunks);
    assert r == out + (W64(rg.rows) + All(ChunkBytes, rg.chunks));
  }

  /** The footer part of `Writer::finish`. */
  method WriteFooter(schema: seq<Field>, rgs: seq<RowGroupMeta>) returns (f: seq<byte>)
    ensures f == FooterBytes(schema, rgs)
  {
    hide FieldBytes, RowGroupBytes, U32;
    ghost var head := U32(|schema|) + All(FieldBytes, schema) + U32(|rgs|);
    f := U32(|schema|);
    f := PutAll(f, FieldBytes, schema);
    f := f + U32(|rgs|);
    for i := 0 to |rgs|
      invariant f == head + All(RowGroupBytes, rgs[..i])
    {
      f := PutRowGroup(f, rgs[i]);
      AllSnoc(RowGroupBytes, rgs[..i], rgs[i]);
      assert rgs[..i + 1] == rgs[..i] + [rgs[i]];
    }
    assert rgs[..|rgs|] == rgs;
    assert f == FooterBytes(schema, rgs);
  }

  method GetFooter(f: seq<byte>) returns (r: Option<(seq<Field>, seq<RowGroupMeta>)>)
    ensures r == ParseFooter(f)
  {
    hide Times;
    var cols := R32(f, 0);
    if cols.None? {
      return None;
    }
    var schema := GetAll(ReadField, cols.value.0, f, cols.value.1);
    if schema.None? {
      return None;
    }
    var n := R32(f, schema.value.1);
    if n.None? {
      return None;
    }
    var rgs := GetAll(RowGroupParser(cols.value.0), n.value.0, f, n.value.1);
    if rgs.None? {
      return None;
    }
    r := Some((schema.value.0, rgs.value.0));
  }

  /** `Reader::open`. */
  method OpenFile(file: seq<byte>) returns (r: Option<FileMeta>)
    ensures r == Open(file)
  {
    hide ParseFooter;
    var size := |file|;
    if size < 8 || size >= TWO_64 || file[size - 4..] != MAGIC {
      return None;
    }
    var len := FromLE(file[size - 8..size - 4]);
    if len > size - 8 {
      return None;
    }
    var footer := GetFooter(file[size - 8 - len..size - 8]);
    if footer.None? {
      return None;
    }
    r := Some(FileMeta(footer.value.0, footer.value.1, size));
  }
}
