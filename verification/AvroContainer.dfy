/** Avro container files, as this writer and any other leave them. */
module AvroContainer {
  /* `write_container` and `read_container`. */

  import opened Wrappers
  import opened Bytes
  import opened Unicode
  import opened Avro
  import opened AvroLoops
  import opened AvroSchema

  /** The foreign code: printing and parsing JSON text, and the deflate codec. */
  datatype Foreign = Foreign(
    render: JsonValue -> seq<byte>, parse: seq<byte> -> Option<JsonValue>,
    deflate: seq<byte> -> seq<byte>, inflate: seq<byte> -> Option<seq<byte>>)

  ghost predicate Invertible(lib: Foreign) {
    && (forall j :: lib.parse(lib.render(j)) == Some(j) && IsUtf8(lib.render(j)))
    && (forall b :: lib.inflate(lib.deflate(b)) == Some(b))
  }

  datatype Failure = Panics | InvalidData | NotFound

  const MAGIC: seq<byte> := [0x4F, 0x62, 0x6A, 0x01]
  const MARKER: nat := 16
  const SYNC: seq<byte> := Ascii("BLITZAVRO_SYNC__")
  const SCHEMA_KEY: Text := Ascii("avro.schema")
  const CODEC_KEY: Text := Ascii("avro.codec")
  const DEFLATE: Text := Ascii("deflate")
  const NULL_CODEC: Text := Ascii("null")
  const HEADER_SCHEMA: Schema := SMap(SBytes)

  // ---- reading ----

  /** The value of the last entry with this key. */
  function LastBytes(entries: seq<(Text, Value)>, key: Text, otherwise: seq<byte>): seq<byte> {
    if entries == [] then otherwise else
    var (k, v) := entries[|entries| - 1];
    if k == key && v.Bytes? then v.bytes else LastBytes(entries[..|entries| - 1], key, otherwise)
  }

  /** Each value of these keys is turned into a `String`, also if a later one overwrites it. */
  predicate MetaReads(entries: seq<(Text, Value)>) {
    forall i :: 0 <= i < |entries| ==> EntryReads(entries[i])
  }

  predicate EntryReads(e: (Text, Value)) {
    (e.0 == SCHEMA_KEY || e.0 == CODEC_KEY) && e.1.Bytes? ==> IsUtf8(e.1.bytes)
  }

  function Unpack(lib: Foreign, codec: Text, stored: seq<byte>): Result<seq<byte>, Failure> {
    if codec == NULL_CODEC then Ok(stored)
    else if codec == DEFLATE then (match lib.inflate(stored) case None => Err(InvalidData) case Some(raw) => Ok(raw))
    else Err(Panics)
  }

  /** `n` values one after another; bytes after them are not looked at. */
  function DecodeRows(s: Schema, n: nat, raw: seq<byte>, pos: nat): Option<seq<Value>>
    requires pos <= |raw|
    decreases n
  {
    if n == 0 then Some([]) else
    match Decode(s, raw, pos)
    case None => None
    case Some((v, p)) => match DecodeRows(s, n - 1, raw, p) case None => None case Some(more) => Some([v] + more)
  }

  /** The count, the stored bytes and the position after the marker of the section that starts here. */
  function SectionAt(buf: seq<byte>, pos: nat): (r: Option<(nat, seq<byte>, nat)>)
    requires pos <= |buf|
    ensures r.Some? ==> pos < r.value.2
  {
    match GetLong(buf, pos)
    case None => None
    case Some((count, p)) =>
      match GetBytes(buf, p)
      case None => None
      case Some((stored, k)) => Some((if count < 0 then 0 else count, stored, k + MARKER))
  }

  /** A section with a negative count gives no rows, whatever it stores. */
  lemma NegativeCount(lib: Foreign, s: Schema, codec: Text, buf: seq<byte>, pos: nat)
    requires pos < |buf| && GetLong(buf, pos).Some? && GetLong(buf, pos).value.0 < 0
    requires GetBytes(buf, GetLong(buf, pos).value.1).Some? && Unpack(lib, codec, GetBytes(buf, GetLong(buf, pos).value.1).value.0).Ok?
    ensures ReadSections(lib, s, codec, buf, pos) == ReadSections(lib, s, codec, buf, GetBytes(buf, GetLong(buf, pos).value.1).value.1 + MARKER)
  {
    hide GetLong, GetBytes, Unpack;
    var next := GetBytes(buf, GetLong(buf, pos).value.1).value.1 + MARKER;
    if ReadSections(lib, s, codec, buf, next).Ok? {
      assert [] + ReadSections(lib, s, codec, buf, next).value == ReadSections(lib, s, codec, buf, next).value;
    }
  }

  function DecodeSection(lib: Foreign, s: Schema, codec: Text, count: nat, stored: seq<byte>): Result<seq<Value>, Failure> {
    match Unpack(lib, codec, stored)
    case Err(e) => Err(e)
    case Ok(raw) => match DecodeRows(s, count, raw, 0) case None => Err(Panics) case Some(rows) => Ok(rows)
  }

  function ReadSections(lib: Foreign, s: Schema, codec: Text, buf: seq<byte>, pos: nat): Result<seq<Value>, Failure>
    decreases |buf| - pos
  {
    if pos >= |buf| then Ok([]) else
    match SectionAt(buf, pos)
    case None => Err(Panics)
    case Some((count, stored, next)) =>
      match DecodeSection(lib, s, codec, count, stored)
      case Err(e) => Err(e)
      case Ok(rows) =>
        match ReadSections(lib, s, codec, buf, next)
        case Err(e) => Err(e)
        case Ok(more) => Ok(rows + more)
  }

  function ReadHeader(lib: Foreign, buf: seq<byte>): (r: Option<(Schema, Text, nat)>)
    ensures r.Some? ==> r.value.2 >= MARKER
  {
    if |buf| < 4 || buf[..4] != MAGIC then None else
    match DecodeBlocks(HEADER_SCHEMA, buf, 4)
    case None => None
    case Some((entries, p)) =>
      if !MetaReads(entries) then None else
      match lib.parse(LastBytes(entries, SCHEMA_KEY, []))
      case None => None
      case Some(j) =>
        match Parse(j)
        case None => None
        case Some(s) => Some((s, LastBytes(entries, CODEC_KEY, NULL_CODEC), p + MARKER))
  }

  function Read(lib: Foreign, buf: seq<byte>): Result<(Schema, seq<Value>), Failure> {
    match ReadHeader(lib, buf)
    case None => Err(Panics)
    case Some((s, codec, pos)) =>
      match ReadSections(lib, s, codec, buf, pos)
      case Err(e) => Err(e)
      case Ok(rows) => Ok((s, rows))
  }

  // ---- what a writer may leave ----

  /** A section: its rows, in any split of their arrays and maps, the bytes stored for them, and its marker. */
  datatype Section = Section(rows: seq<Wire>, stored: seq<byte>, marker: seq<byte>)

  function RowBytes(rows: seq<Wire>): seq<byte> {
    if rows == [] then [] else WireBytes(rows[0]) + RowBytes(rows[1..])
  }

  function Meant(rows: seq<Wire>): seq<Value> {
    if rows == [] then [] else [ValueOf(rows[0])] + Meant(rows[1..])
  }

  function SectionBytes(x: Section): seq<byte> {
    if |x.rows| >= TWO_63 || |x.stored| >= TWO_63 then [] else PutLong(|x.rows|) + (PutBytes(x.stored) + x.marker)
  }

  function SectionsBytes(xs: seq<Section>): seq<byte> {
    if xs == [] then [] else SectionBytes(xs[0]) + SectionsBytes(xs[1..])
  }

  function AllMeant(xs: seq<Section>): seq<Value> {
    if xs == [] then [] else Meant(xs[0].rows) + AllMeant(xs[1..])
  }

  ghost predicate RowsFit(rows: seq<Wire>, s: Schema) {
    forall i :: 0 <= i < |rows| ==> Fits(rows[i], s)
  }

  ghost predicate SectionFits(lib: Foreign, s: Schema, codec: Text, x: Section) {
    && |x.rows| < TWO_63 && |x.stored| < TWO_63 && |x.marker| == MARKER
    && RowsFit(x.rows, s) && Unpack(lib, codec, x.stored) == Ok(RowBytes(x.rows))
  }

  ghost predicate HeaderFits(lib: Foreign, header: Wire, s: Schema, codec: Text) {
    && header.WBlocks? && Fits(header, HEADER_SCHEMA) && MetaReads(BlockValues(header, 0))
    && (exists j :: lib.parse(LastBytes(BlockValues(header, 0), SCHEMA_KEY, [])) == Some(j) && Parse(j) == Some(s))
    && LastBytes(BlockValues(header, 0), CODEC_KEY, NULL_CODEC) == codec
  }

  function Container(header: Wire, marker: seq<byte>, xs: seq<Section>): seq<byte> {
    MAGIC + (WireBytes(header) + (marker + SectionsBytes(xs)))
  }

  // ---- reading it back ----

  lemma {:induction false} DecodeRowsOf(s: Schema, rows: seq<Wire>, raw: seq<byte>, pos: nat)
    requires RowsFit(rows, s) && At(raw, pos, RowBytes(rows))
    ensures pos <= |raw| && DecodeRows(s, |rows|, raw, pos) == Some(Meant(rows))
    decreases |rows|
  {
    hide At, Decode, WireBytes, ValueOf, Fits;
    AtInside(raw, pos, RowBytes(rows));
    if rows != [] {
      AtParts(raw, pos, WireBytes(rows[0]), RowBytes(rows[1..]));
      DecodeWire(rows[0], s, raw, pos);
      DecodeRowsOf(s, rows[1..], raw, pos + |WireBytes(rows[0])|);
    }
  }

  lemma SectionAtOf(x: Section, buf: seq<byte>, pos: nat)
    requires |x.rows| < TWO_63 && |x.stored| < TWO_63 && |x.marker| == MARKER && At(buf, pos, SectionBytes(x))
    ensures pos < |buf| && SectionAt(buf, pos) == Some((|x.rows|, x.stored, pos + |SectionBytes(x)|))
  {
    hide PutLong, PutBytes, GetLong, GetBytes, At;
    AtInside(buf, pos, SectionBytes(x));
    AtParts(buf, pos, PutLong(|x.rows|), PutBytes(x.stored) + x.marker);
    AtParts(buf, pos + |PutLong(|x.rows|)|, PutBytes(x.stored), x.marker);
    GetLongAt(buf, pos, |x.rows|);
    GetBytesAt(buf, pos + |PutLong(|x.rows|)|, x.stored);
  }

  lemma DecodeSectionOf(lib: Foreign, s: Schema, codec: Text, x: Section)
    requires SectionFits(lib, s, codec, x)
    ensures DecodeSection(lib, s, codec, |x.rows|, x.stored) == Ok(Meant(x.rows))
  {
    hide RowsFit, Unpack, RowBytes, Meant, DecodeRows;
    var raw := RowBytes(x.rows);
    assert raw[0..0 + |raw|] == raw;
    DecodeRowsOf(s, x.rows, raw, 0);
  }

  lemma {:induction false} ReadSectionsOf(lib: Foreign, s: Schema, codec: Text, xs: seq<Section>, buf: seq<byte>, pos: nat)
    requires forall i :: 0 <= i < |xs| ==> SectionFits(lib, s, codec, xs[i])
    requires At(buf, pos, SectionsBytes(xs)) && pos + |SectionsBytes(xs)| == |buf|
    ensures ReadSections(lib, s, codec, buf, pos) == Ok(AllMeant(xs))
    decreases |xs|
  {
    hide At, SectionAt, SectionBytes, DecodeSection, Meant;
    if xs != [] {
      AtParts(buf, pos, SectionBytes(xs[0]), SectionsBytes(xs[1..]));
      SectionAtOf(xs[0], buf, pos);
      DecodeSectionOf(lib, s, codec, xs[0]);
      ReadSectionsOf(lib, s, codec, xs[1..], buf, pos + |SectionBytes(xs[0])|);
    }
  }

  lemma ContainerParts(header: Wire, marker: seq<byte>, xs: seq<Section>)
    ensures var buf := Container(header, marker, xs);
            && |buf| >= 4 && buf[..4] == MAGIC && At(buf, 4, WireBytes(header))
            && At(buf, 4 + |WireBytes(header)| + |marker|, SectionsBytes(xs))
            && 4 + |WireBytes(header)| + |marker| + |SectionsBytes(xs)| == |buf|
  {
    hide WireBytes, SectionsBytes, At;
    var buf := Container(header, marker, xs);
    AtAll(buf);
    AtParts(buf, 0, MAGIC, WireBytes(header) + (marker + SectionsBytes(xs)));
    AtParts(buf, 4, WireBytes(header), marker + SectionsBytes(xs));
    AtParts(buf, 4 + |WireBytes(header)|, marker, SectionsBytes(xs));
    AtStart(buf, MAGIC);
  }

  lemma AtAll(b: seq<byte>)
    ensures At(b, 0, b)
  {
    assert b[0..|b|] == b;
  }

  lemma AtStart(b: seq<byte>, x: seq<byte>)
    requires At(b, 0, x)
    ensures |x| <= |b| && b[..|x|] == x
  {
    assert b[0..0 + |x|] == b[..|x|];
  }

  lemma ReadHeaderOf(lib: Foreign, header: Wire, s: Schema, codec: Text, buf: seq<byte>)
    requires HeaderFits(lib, header, s, codec)
    requires |buf| >= 4 && buf[..4] == MAGIC && At(buf, 4, WireBytes(header))
    ensures ReadHeader(lib, buf) == Some((s, codec, 4 + |WireBytes(header)| + MARKER))
  {
    hide At, Fits, Decode, DecodeBlocks, BlockBytes, BlockValues, LastBytes, MetaReads, Parse;
    assert WireBytes(header) == BlockBytes(header, 0);
    DecodeBlocksOf(header, HEADER_SCHEMA, 0, buf, 4);
  }

  /** A container file, whatever the split of its header and rows into blocks and of its rows into sections, stored
      raw or deflated, reads as its schema and the values its rows mean, in order. */
  lemma ReadContainerOf(lib: Foreign, header: Wire, s: Schema, codec: Text, marker: seq<byte>, xs: seq<Section>)
    requires HeaderFits(lib, header, s, codec) && |marker| == MARKER
    requires forall i :: 0 <= i < |xs| ==> SectionFits(lib, s, codec, xs[i])
    ensures Read(lib, Container(header, marker, xs)) == Ok((s, AllMeant(xs)))
  {
    hide HeaderFits, SectionFits, Container, At, WireBytes, SectionsBytes, ReadHeader, ReadSections, AllMeant;
    ContainerParts(header, marker, xs);
    var buf := Container(header, marker, xs);
    ReadHeaderOf(lib, header, s, codec, buf);
    ReadSectionsOf(lib, s, codec, xs, buf, 4 + |WireBytes(header)| + MARKER);
  }

  // ---- what `write_container` leaves ----

  function HeaderValue(text: seq<byte>): Value {
    Map([(SCHEMA_KEY, Bytes(text)), (CODEC_KEY, Bytes(DEFLATE))])
  }

  function AllCanon(rows: seq<Value>): (ws: seq<Wire>)
    ensures |ws| == |rows| && forall i :: 0 <= i < |ws| ==> ws[i] == Canon(rows[i])
  {
    seq(|rows|, i requires 0 <= i < |rows| => Canon(rows[i]))
  }

  function OnlySection(lib: Foreign, rows: seq<Value>): Section {
    Section(AllCanon(rows), lib.deflate(RowBytes(AllCanon(rows))), SYNC)
  }

  /** The file's bytes. */
  function Written(lib: Foreign, s: Schema, rows: seq<Value>): seq<byte> {
    Container(Canon(HeaderValue(lib.render(ToJson(s)))), SYNC, [OnlySection(lib, rows)])
  }

  ghost predicate AllConform(rows: seq<Value>, s: Schema) {
    forall i :: 0 <= i < |rows| ==> Conforms(rows[i], s)
  }

  /** The vectors that are written fit in memory. */
  ghost predicate InMemory(lib: Foreign, s: Schema, rows: seq<Value>) {
    |lib.render(ToJson(s))| < TWO_63 && |rows| < TWO_63 && |OnlySection(lib, rows).stored| < TWO_63
  }

  lemma HeaderConforms(text: seq<byte>)
    requires |text| < TWO_63
    ensures Conforms(HeaderValue(text), HEADER_SCHEMA)
  {
    hide IsUtf8, Ascii;
    AsciiIsText("avro.schema");
    AsciiIsText("avro.codec");
  }

  lemma HeaderEntries(text: seq<byte>)
    requires IsUtf8(text)
    ensures MetaReads(HeaderValue(text).entries)
    ensures LastBytes(HeaderValue(text).entries, SCHEMA_KEY, []) == text
    ensures LastBytes(HeaderValue(text).entries, CODEC_KEY, NULL_CODEC) == DEFLATE
  {
    hide IsUtf8;
    var es := HeaderValue(text).entries;
    AsciiIsText("deflate");
    assert es[..1] == [es[0]];
    assert LastBytes(es[..1], SCHEMA_KEY, []) == text;
  }

  lemma HeaderWritten(lib: Foreign, s: Schema)
    requires Invertible(lib) && |lib.render(ToJson(s))| < TWO_63
    ensures HeaderFits(lib, Canon(HeaderValue(lib.render(ToJson(s)))), s, DEFLATE)
  {
    hide ToJson, Parse, LastBytes, MetaReads, Canon, Fits, Conforms, BlockValues;
    var text := lib.render(ToJson(s));
    HeaderConforms(text);
    CanonMeans(HeaderValue(text), HEADER_SCHEMA);
    HeaderBlocks(text);
    HeaderEntries(text);
    ParseOfJson(s);
    assert lib.parse(text) == Some(ToJson(s));
  }

  lemma HeaderBlocks(text: seq<byte>)
    requires Means(HeaderValue(text), HEADER_SCHEMA)
    ensures Canon(HeaderValue(text)).WBlocks? && BlockValues(Canon(HeaderValue(text)), 0) == HeaderValue(text).entries
  {
    hide Fits, BlockValues, CanonFields;
  }

  lemma RowsFitWritten(rows: seq<Value>, s: Schema)
    requires AllConform(rows, s)
    ensures RowsFit(AllCanon(rows), s)
  {
    hide Conforms, Fits, Canon;
    forall i | 0 <= i < |rows| ensures Fits(AllCanon(rows)[i], s) {
      CanonMeans(rows[i], s);
    }
  }

  lemma {:induction false} MeantIs(ws: seq<Wire>, rows: seq<Value>)
    requires |ws| == |rows| && forall i :: 0 <= i < |ws| ==> ValueOf(ws[i]) == rows[i]
    ensures Meant(ws) == rows
    decreases |ws|
  {
    hide ValueOf;
    if ws != [] {
      MeantIs(ws[1..], rows[1..]);
    }
  }

  lemma MeantWritten(rows: seq<Value>, s: Schema)
    requires AllConform(rows, s)
    ensures Meant(AllCanon(rows)) == rows
  {
    hide Conforms, Fits, Canon, ValueOf;
    forall i | 0 <= i < |rows| ensures ValueOf(AllCanon(rows)[i]) == rows[i] {
      CanonMeans(rows[i], s);
    }
    MeantIs(AllCanon(rows), rows);
  }

  /** What `write_container` leaves reads back as the schema and the rows. */
  lemma ReadOfWritten(lib: Foreign, s: Schema, rows: seq<Value>)
    requires Invertible(lib) && AllConform(rows, s) && InMemory(lib, s, rows)
    ensures Read(lib, Written(lib, s, rows)) == Ok((s, rows))
  {
    hide ToJson, Canon, AllConform, RowsFit, RowBytes, Meant, Container, HeaderFits, Read;
    var x := OnlySection(lib, rows);
    HeaderWritten(lib, s);
    RowsFitWritten(rows, s);
    MeantWritten(rows, s);
    assert lib.inflate(x.stored) == Some(RowBytes(x.rows));
    assert NULL_CODEC != DEFLATE;
    assert SectionFits(lib, s, DEFLATE, x);
    ReadContainerOf(lib, Canon(HeaderValue(lib.render(ToJson(s)))), s, DEFLATE, SYNC, [x]);
    assert [x][1..] == [];
    assert AllMeant([x]) == rows + AllMeant([]);
    assert rows + [] == rows;
  }

  // ---- the writer ----

  lemma NextRow(rows: seq<Value>, i: nat)
    requires i < |rows|
    ensures RowBytes(AllCanon(rows)[i..]) == Encoded(rows[i]) + RowBytes(AllCanon(rows)[i + 1..])
  {
    hide Canon, WireBytes;
    var ws := AllCanon(rows)[i..];
    assert ws[0] == Canon(rows[i]) && ws[1..] == AllCanon(rows)[i + 1..];
  }

  method EncodeRows(s: Schema, rows: seq<Value>) returns (payload: seq<byte>)
    requires AllConform(rows, s)
    ensures payload == RowBytes(AllCanon(rows))
  {
    hide Conforms, Encoded, RowBytes;
    payload := [];
    assert AllCanon(rows)[0..] == AllCanon(rows);
    for i := 0 to |rows|
      invariant payload + RowBytes(AllCanon(rows)[i..]) == RowBytes(AllCanon(rows))
    {
      NextRow(rows, i);
      ghost var before := payload;
      payload := EncodeValue(rows[i], s, payload);
      Regroup(before, Encoded(rows[i]), RowBytes(AllCanon(rows)[i + 1..]));
    }
    NoRowBytes(AllCanon(rows)[|rows|..], payload);
  }

  lemma Regroup(a: seq<byte>, b: seq<byte>, c: seq<byte>)
    ensures a + (b + c) == (a + b) + c
  {
  }

  lemma NoRowBytes(ws: seq<Wire>, payload: seq<byte>)
    requires ws == []
    ensures payload + RowBytes(ws) == payload
  {
  }

  lemma HeaderBytes(text: seq<byte>)
    requires |text| < TWO_63
    ensures Encoded(HeaderValue(text))
         == PutLong(2) + (PutBytes(SCHEMA_KEY) + PutBytes(text) + PutBytes(CODEC_KEY) + PutBytes(DEFLATE) + PutLong(0))
  {
    hide PutLong, PutBytes, Canon, EntryBytes;
    var v := HeaderValue(text);
    BlocksWritten(v);
    HeaderEntry(v, 0, text);
    HeaderEntry(v, 1, DEFLATE);
    LastEntry(v);
    assert PutBytes(SCHEMA_KEY) + PutBytes(text) + (PutBytes(CODEC_KEY) + PutBytes(DEFLATE) + []) + PutLong(0)
        == PutBytes(SCHEMA_KEY) + PutBytes(text) + PutBytes(CODEC_KEY) + PutBytes(DEFLATE) + PutLong(0);
  }

  lemma LastEntry(v: Value)
    requires Canon(v).WBlocks? && |Canon(v).blocks| == 1 && |Canon(v).blocks[0].entries| == Children(v)
    ensures EntryBytes(Canon(v), 0, Children(v)) == []
  {
    hide Canon;
  }

  lemma HeaderEntry(v: Value, i: nat, b: seq<byte>)
    requires v.Map? && i < Children(v) && |KeyOf(v, i)| < TWO_63 && |b| < TWO_63 && ChildOf(v, i) == Bytes(b)
    requires Canon(v).WBlocks? && |Canon(v).blocks| == 1 && |Canon(v).blocks[0].entries| == Children(v)
    ensures EntryBytes(Canon(v), 0, i) == PutBytes(KeyOf(v, i)) + PutBytes(b) + EntryBytes(Canon(v), 0, i + 1)
  {
    hide PutBytes, Canon, EntryBytes, Encoded;
    EntryWritten(v, i, []);
    PlainBytesOf(b);
    assert [] + EntryBytes(Canon(v), 0, i) == EntryBytes(Canon(v), 0, i);
    assert [] + PutBytes(KeyOf(v, i)) == PutBytes(KeyOf(v, i));
  }

  lemma PlainBytesOf(b: seq<byte>)
    requires |b| < TWO_63
    ensures Encoded(Bytes(b)) == PutBytes(b)
  {
    hide PutBytes;
  }

  lemma WrittenParts(lib: Foreign, s: Schema, rows: seq<Value>)
    requires InMemory(lib, s, rows)
    ensures var x := OnlySection(lib, rows);
            Written(lib, s, rows) == MAGIC + (Encoded(HeaderValue(lib.render(ToJson(s)))) + (SYNC + (PutLong(|rows|) + (PutBytes(x.stored) + SYNC))))
  {
    hide ToJson, Canon, WireBytes, RowBytes, PutLong, PutBytes;
    var x := OnlySection(lib, rows);
    assert [x][1..] == [];
    assert SectionsBytes([x]) == SectionBytes(x) + [];
    assert SectionBytes(x) + [] == SectionBytes(x);
  }

  method WriteHeader(out: seq<byte>, text: seq<byte>) returns (r: seq<byte>)
    requires |text| < TWO_63
    ensures r == out + Encoded(HeaderValue(text))
  {
    hide PutLong, PutBytes, Encoded;
    r := WriteLong([], 2);
    r := WriteBytes(r, SCHEMA_KEY);
    r := WriteBytes(r, text);
    r := WriteBytes(r, CODEC_KEY);
    r := WriteBytes(r, DEFLATE);
    r := WriteLong(r, 0);
    HeaderBytes(text);
    r := out + r;
  }

  method WriteContainer(lib: Foreign, s: Schema, rows: seq<Value>) returns (out: seq<byte>)
    requires AllConform(rows, s) && InMemory(lib, s, rows)
    ensures out == Written(lib, s, rows)
    ensures Invertible(lib) ==> Read(lib, out) == Ok((s, rows))
  {
    hide AllConform, Encoded, RowBytes, ToJson, Read, Invertible, PutLong, PutBytes, Written;
    var text := lib.render(ToJson(s));
    out := WriteHeader(MAGIC, text);
    out := out + SYNC;
    var payload := EncodeRows(s, rows);
    var comp := lib.deflate(payload);
    out := WriteLong(out, |rows|);
    out := WriteBytes(out, comp);
    out := out + SYNC;
    WrittenParts(lib, s, rows);
    if Invertible(lib) {
      ReadOfWritten(lib, s, rows);
    }
  }

  // ---- the reader ----

  /** The header's loop: each entry overwrites what an earlier one of its key has set. */
  ghost predicate EntryHas(e: (Text, Value), key: Text) {
    e.0 == key && e.1.Bytes?
  }

  ghost predicate IsUtf8Text(e: (Text, Value)) {
    e.1.Bytes? ==> IsUtf8(e.1.bytes)
  }

  /** `b` is the value of the last entry with the key, or there is none and it is `otherwise`. */
  ghost predicate IsLast(entries: seq<(Text, Value)>, key: Text, otherwise: seq<byte>, b: seq<byte>) {
    || (b == otherwise && forall k :: 0 <= k < |entries| ==> !EntryHas(entries[k], key))
    || exists k :: 0 <= k < |entries| && EntryHas(entries[k], key) && entries[k].1.bytes == b
         && forall l :: k < l < |entries| ==> !EntryHas(entries[l], key)
  }

  lemma {:induction false} LastBytesIs(entries: seq<(Text, Value)>, key: Text, otherwise: seq<byte>)
    ensures IsLast(entries, key, otherwise, LastBytes(entries, key, otherwise))
    decreases |entries|
  {
    if entries != [] {
      var n := |entries| - 1;
      if EntryHas(entries[n], key) {
        assert EntryHas(entries[n], key) && entries[n].1.bytes == LastBytes(entries, key, otherwise);
      } else {
        LastBytesIs(entries[..n], key, otherwise);
        assert forall k :: 0 <= k < n ==> entries[..n][k] == entries[k];
      }
    }
  }

  method ReadMeta(entries: seq<(Text, Value)>) returns (r: Option<(seq<byte>, Text)>)
    ensures r == if MetaReads(entries)
                 then Some((LastBytes(entries, SCHEMA_KEY, []), LastBytes(entries, CODEC_KEY, NULL_CODEC))) else None
    ensures r == None <==> exists i :: 0 <= i < |entries| && !IsUtf8Text(entries[i])
                             && (entries[i].0 == Ascii("avro.schema") || entries[i].0 == Ascii("avro.codec"))
    ensures r.Some? ==> IsLast(entries, Ascii("avro.schema"), [], r.value.0) && IsLast(entries, Ascii("avro.codec"), Ascii("null"), r.value.1)
  {
    LastBytesIs(entries, SCHEMA_KEY, []);
    LastBytesIs(entries, CODEC_KEY, NULL_CODEC);
    hide IsUtf8, IsLast;
    var text: seq<byte>, codec := [], NULL_CODEC;
    for i := 0 to |entries|
      invariant text == LastBytes(entries[..i], SCHEMA_KEY, []) && codec == LastBytes(entries[..i], CODEC_KEY, NULL_CODEC)
      invariant forall k :: 0 <= k < i ==> EntryReads(entries[k])
    {
      var (k, v) := entries[i];
      LastBytesSnoc(entries, i, SCHEMA_KEY, []);
      LastBytesSnoc(entries, i, CODEC_KEY, NULL_CODEC);
      if v.Bytes? && (k == SCHEMA_KEY || k == CODEC_KEY) {
        if !IsUtf8(v.bytes) {
          return None;
        }
        if k == SCHEMA_KEY {
          text := v.bytes;
        } else {
          codec := v.bytes;
        }
      }
    }
    assert entries[..|entries|] == entries;
    r := Some((text, codec));
  }

  lemma LastBytesSnoc(entries: seq<(Text, Value)>, i: nat, key: Text, otherwise: seq<byte>)
    requires i < |entries|
    ensures LastBytes(entries[..i + 1], key, otherwise)
         == if entries[i].0 == key && entries[i].1.Bytes? then entries[i].1.bytes else LastBytes(entries[..i], key, otherwise)
  {
    assert entries[..i + 1][..i] == entries[..i];
  }

  ghost function OptionOnto<T>(xs: seq<T>, more: Option<seq<T>>): Option<seq<T>> {
    match more case None => None case Some(ys) => Some(xs + ys)
  }

  lemma OptionOntoNext<T>(xs: seq<T>, ys: seq<T>, more: Option<seq<T>>)
    ensures OptionOnto(xs, match more case None => None case Some(zs) => Some(ys + zs)) == OptionOnto(xs + ys, more)
    ensures OptionOnto([], more) == more && OptionOnto(xs, Some([])) == Some(xs)
  {
    if more.Some? {
      assert xs + (ys + more.value) == xs + ys + more.value;
      assert [] + more.value == more.value;
    }
    assert xs + [] == xs;
  }

  method ReadRows(s: Schema, count: nat, raw: seq<byte>) returns (r: Option<seq<Value>>)
    ensures r == DecodeRows(s, count, raw, 0)
  {
    hide Decode;
    var rows: seq<Value>, pos: nat := [], 0;
    OptionOntoNext(rows, [], DecodeRows(s, count, raw, 0));
    for i := 0 to count
      invariant pos <= |raw| && OptionOnto(rows, DecodeRows(s, count - i, raw, pos)) == DecodeRows(s, count, raw, 0)
    {
      var v := DecodeValue(s, raw, pos);
      if v.None? {
        return None;
      }
      OptionOntoNext(rows, [v.value.0], DecodeRows(s, count - i - 1, raw, v.value.1));
      rows, pos := rows + [v.value.0], v.value.1;
    }
    OptionOntoNext(rows, [], None);
    r := Some(rows);
  }

  ghost function ResultOnto<T>(xs: seq<T>, more: Result<seq<T>, Failure>): Result<seq<T>, Failure> {
    match more case Err(e) => Err(e) case Ok(ys) => Ok(xs + ys)
  }

  lemma ResultOntoNext<T>(xs: seq<T>, ys: seq<T>, more: Result<seq<T>, Failure>)
    ensures ResultOnto(xs, match more case Err(e) => Err(e) case Ok(zs) => Ok(ys + zs)) == ResultOnto(xs + ys, more)
    ensures ResultOnto([], more) == more && ResultOnto(xs, Ok([])) == Ok(xs)
  {
    if more.Ok? {
      assert xs + (ys + more.value) == xs + ys + more.value;
      assert [] + more.value == more.value;
    }
    assert xs + [] == xs;
  }

  method ReadContainer(lib: Foreign, buf: seq<byte>) returns (r: Result<(Schema, seq<Value>), Failure>)
    ensures r == Read(lib, buf)
  {
    hide DecodeRows, GetLong, GetBytes, DecodeBlocks, Parse, LastBytes, MetaReads, Unpack;
    if |buf| < 4 || buf[..4] != MAGIC {
      return Err(Panics);
    }
    var header := ReadBlocks(HEADER_SCHEMA, buf, 4);
    if header.None? {
      return Err(Panics);
    }
    var meta := ReadMeta(header.value.0);
    if meta.None? {
      return Err(Panics);
    }
    var (text, codec) := meta.value;
    var j := lib.parse(text);
    if j.None? || Parse(j.value).None? {
      return Err(Panics);
    }
    var s := Parse(j.value).value;
    var pos := header.value.1 + MARKER;
    var rows: seq<Value> := [];
    ghost var start := pos;
    ResultOntoNext(rows, [], ReadSections(lib, s, codec, buf, start));
    while pos < |buf|
      invariant ResultOnto(rows, ReadSections(lib, s, codec, buf, pos)) == ReadSections(lib, s, codec, buf, start)
    {
      var count := ReadLong(buf, pos);
      if count.None? {
        return Err(Panics);
      }
      var stored := GetBytes(buf, count.value.1);
      if stored.None? {
        return Err(Panics);
      }
      var raw := Unpack(lib, codec, stored.value.0);
      if raw.Err? {
        return Err(raw.error);
      }
      var more := ReadRows(s, if count.value.0 < 0 then 0 else count.value.0, raw.value);
      if more.None? {
        return Err(Panics);
      }
      ResultOntoNext(rows, more.value, ReadSections(lib, s, codec, buf, stored.value.1 + MARKER));
      rows, pos := rows + more.value, stored.value.1 + MARKER;
    }
    ResultOntoNext(rows, [], Ok([]));
    r := Ok((s, rows));
  }
}
