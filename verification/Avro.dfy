/** The Avro binary encoding, as it is written and as any other writer may leave it. */
module Avro {
  /* Schema-driven, with arrays and maps in any split into blocks. */

  import opened Wrappers
  import opened Bytes
  import opened Unicode
  import opened Pages

  type Text = seq<byte>

  datatype Schema =
    | SNull | SBoolean | SInt | SLong | SFloat | SDouble | SBytes | SString
    | SRecord(name: Text, fields: seq<(Text, Schema)>)
    | SArray(item: Schema)
    | SMap(item: Schema)
    | SUnion(opts: seq<Schema>)

  /** Floating-point numbers are their bits. */
  datatype Value =
    | Null
    | Boolean(b: bool)
    | Int(i: i32)
    | Long(l: i64)
    | Float(f: nat)
    | Double(d: nat)
    | Bytes(bytes: seq<byte>)
    | String(text: Text)
    | Record(fields: seq<(Text, Value)>)
    | Array(items: seq<Value>)
    | Map(entries: seq<(Text, Value)>)
    | Union(idx: nat, v: Value)

  // ---- longs and byte strings ----

  function PutLong(n: i64): (b: seq<byte>)
    ensures |b| >= 1
  {
    Varint(Zigzag(n))
  }

  function GetLong(buf: seq<byte>, pos: nat): (r: Option<(i64, nat)>)
    requires pos <= |buf|
    ensures r.Some? ==> pos < r.value.1 <= |buf|
  {
    ReadVarintBound(buf[pos..], 0);
    RoomForU64();
    ReadVarintShrinks(buf[pos..], 0);
    match ReadVarint(buf[pos..], 0)
    case None => None
    case Some((u, rest)) => Some((Unzigzag(u), |buf| - |rest|))
  }

  lemma {:induction false} ReadVarintShrinks(rest: seq<byte>, k: nat)
    ensures ReadVarint(rest, k).Some? ==> |ReadVarint(rest, k).value.1| < |rest|
    decreases |rest|
  {
    if rest != [] {
      ReadVarintShrinks(rest[1..], k + 1);
    }
  }

  function PutBytes(b: seq<byte>): seq<byte>
    requires |b| < TWO_63
  {
    PutLong(|b|) + b
  }

  /** A length and as many bytes; a negative length, as an index, is out of range. */
  function GetBytes(buf: seq<byte>, pos: nat): (r: Option<(seq<byte>, nat)>)
    requires pos <= |buf|
    ensures r.Some? ==> pos < r.value.1 <= |buf|
  {
    match GetLong(buf, pos)
    case None => None
    case Some((n, p)) => if n < 0 || p + n > |buf| then None else Some((buf[p..p + n], p + n))
  }

  /** A byte string that must be UTF-8; if not, unwrapping it is a panic. */
  function GetText(buf: seq<byte>, pos: nat): (r: Option<(Text, nat)>)
    requires pos <= |buf|
    ensures r.Some? ==> pos < r.value.1 <= |buf|
  {
    match GetBytes(buf, pos)
    case None => None
    case Some((b, p)) => if IsUtf8(b) then Some((b, p)) else None
  }

  ghost predicate At(b: seq<byte>, p: nat, x: seq<byte>) {
    p + |x| <= |b| && b[p..p + |x|] == x
  }

  lemma AtParts(b: seq<byte>, p: nat, x: seq<byte>, y: seq<byte>)
    requires At(b, p, x + y)
    ensures At(b, p, x) && At(b, p + |x|, y) && p + |x| + |y| <= |b|
  {
    var s := b[p..p + |x + y|];
    assert s[..|x|] == x && s[|x|..] == y;
    assert b[p..p + |x|] == s[..|x|] && b[p + |x|..p + |x| + |y|] == s[|x|..];
  }

  lemma UnzigzagZigzag(n: i64)
    ensures Unzigzag(Zigzag(n)) == n
  {
  }

  lemma GetLongAt(buf: seq<byte>, pos: nat, n: i64)
    requires At(buf, pos, PutLong(n))
    ensures pos <= |buf| && GetLong(buf, pos) == Some((n, pos + |PutLong(n)|))
  {
    hide Varint, ReadVarint, Zigzag, Unzigzag, Room;
    var rest := buf[pos + |PutLong(n)|..];
    assert buf[pos..] == PutLong(n) + rest;
    RoomForU64();
    ReadVarintOfVarint(Zigzag(n), rest, 0);
    UnzigzagZigzag(n);
  }

  lemma GetBytesAt(buf: seq<byte>, pos: nat, b: seq<byte>)
    requires |b| < TWO_63 && At(buf, pos, PutBytes(b))
    ensures pos <= |buf| && GetBytes(buf, pos) == Some((b, pos + |PutBytes(b)|))
  {
    hide PutLong, GetLong;
    AtParts(buf, pos, PutLong(|b|), b);
    GetLongAt(buf, pos, |b|);
  }

  // ---- decoding; None is a panic ----

  /** `as i32`. */
  function ToI32(n: i64): i32 {
    (n + 0x8000_0000) % 0x1_0000_0000 - 0x8000_0000
  }

  function Decode(s: Schema, buf: seq<byte>, pos: nat): (r: Option<(Value, nat)>)
    requires pos <= |buf|
    ensures r.Some? ==> pos <= r.value.1 <= |buf|
    decreases s, 2, 0
  {
    match s
    case SNull => Some((Null, pos))
    case SBoolean => if pos == |buf| then None else Some((Boolean(buf[pos] != 0), pos + 1))
    case SInt => (match GetLong(buf, pos) case None => None case Some((n, p)) => Some((Int(ToI32(n)), p)))
    case SLong => (match GetLong(buf, pos) case None => None case Some((n, p)) => Some((Long(n), p)))
    case SFloat => if pos + 4 > |buf| then None else Some((Float(FromLE(buf[pos..pos + 4])), pos + 4))
    case SDouble => if pos + 8 > |buf| then None else Some((Double(FromLE(buf[pos..pos + 8])), pos + 8))
    case SBytes => (match GetBytes(buf, pos) case None => None case Some((b, p)) => Some((Bytes(b), p)))
    case SString => (match GetText(buf, pos) case None => None case Some((b, p)) => Some((String(b), p)))
    case SRecord(_, fields) =>
      (match DecodeFields(s, 0, buf, pos) case None => None case Some((fs, p)) => Some((Record(fs), p)))
    case SArray(_) =>
      (match DecodeBlocks(s, buf, pos) case None => None case Some((es, p)) => Some((Array(Values(es)), p)))
    case SMap(_) =>
      (match DecodeBlocks(s, buf, pos) case None => None case Some((es, p)) => Some((Map(es), p)))
    case SUnion(opts) =>
      match GetLong(buf, pos)
      case None => None
      case Some((i, p)) =>
        if i < 0 || i >= |opts| then None else
        match Decode(opts[i], buf, p)
        case None => None
        case Some((v, k)) => Some((Union(i, v), k))
  }

  function DecodeFields(s: Schema, i: nat, buf: seq<byte>, pos: nat): (r: Option<(seq<(Text, Value)>, nat)>)
    requires s.SRecord? && i <= |s.fields| && pos <= |buf|
    ensures r.Some? ==> pos <= r.value.1 <= |buf|
    decreases s, 1, |s.fields| - i
  {
    if i == |s.fields| then Some(([], pos)) else
    match Decode(s.fields[i].1, buf, pos)
    case None => None
    case Some((v, p)) =>
      match DecodeFields(s, i + 1, buf, p)
      case None => None
      case Some((fs, k)) => Some(([(s.fields[i].0, v)] + fs, k))
  }

  function Values(es: seq<(Text, Value)>): (vs: seq<Value>)
    ensures |vs| == |es| && forall i :: 0 <= i < |vs| ==> vs[i] == es[i].1
  {
    seq(|es|, i requires 0 <= i < |es| => es[i].1)
  }

  /** An entry of a map, or an element of an array, which has no key. */
  function DecodeEntry(s: Schema, buf: seq<byte>, pos: nat): (r: Option<((Text, Value), nat)>)
    requires (s.SArray? || s.SMap?) && pos <= |buf|
    ensures r.Some? ==> pos <= r.value.1 <= |buf|
    decreases s, 0, 0
  {
    if s.SArray? then
      match Decode(s.item, buf, pos)
      case None => None
      case Some((v, p)) => Some((([], v), p))
    else
      match GetText(buf, pos)
      case None => None
      case Some((key, p)) =>
        match Decode(s.item, buf, p)
        case None => None
        case Some((v, k)) => Some(((key, v), k))
  }

  function DecodeEntries(s: Schema, n: nat, buf: seq<byte>, pos: nat): (r: Option<(seq<(Text, Value)>, nat)>)
    requires (s.SArray? || s.SMap?) && pos <= |buf|
    ensures r.Some? ==> pos <= r.value.1 <= |buf|
    decreases s, 0, n + 1
  {
    if n == 0 then Some(([], pos)) else
    match DecodeEntry(s, buf, pos)
    case None => None
    case Some((e, p)) =>
      match DecodeEntries(s, n - 1, buf, p)
      case None => None
      case Some((es, k)) => Some(([e] + es, k))
  }

  /** A block count: zero ends the list, a negative count is followed by a size in bytes, which is skipped. */
  function DecodeCount(buf: seq<byte>, pos: nat): (r: Option<(nat, nat)>)
    requires pos <= |buf|
    ensures r.Some? ==> pos < r.value.1 <= |buf|
  {
    match GetLong(buf, pos)
    case None => None
    case Some((n, p)) =>
      if n >= 0 then Some((n, p))
      else if n == -(TWO_63 as int) then None
      else
        match GetLong(buf, p)
        case None => None
        case Some((_, k)) => Some((-n as int, k))
  }

  function DecodeBlocks(s: Schema, buf: seq<byte>, pos: nat): (r: Option<(seq<(Text, Value)>, nat)>)
    requires (s.SArray? || s.SMap?) && pos <= |buf|
    ensures r.Some? ==> pos <= r.value.1 <= |buf|
    decreases s, 1, |buf| - pos
  {
    match DecodeCount(buf, pos)
    case None => None
    case Some((n, p)) =>
      if n == 0 then Some(([], p)) else
      match DecodeEntries(s, n, buf, p)
      case None => None
      case Some((es, q)) =>
        match DecodeBlocks(s, buf, q)
        case None => None
        case Some((more, k)) => Some((es + more, k))
  }

  // ---- what an encoder may write ----

  /** A value together with the way its arrays and maps are split into blocks. */
  datatype Wire =
    | Plain(v: Value)
    | WRecord(fields: seq<(Text, Wire)>)
    | WBlocks(isMap: bool, blocks: seq<Block>)
    | WUnion(idx: nat, w: Wire)

  /** `size` is the byte size an encoder may put after a negated count. */
  datatype Block = Block(size: Option<i64>, entries: seq<(Text, Wire)>)

  /** The primitive kinds are numbered alike for values and schemas. */
  function KindOf(v: Value): nat {
    match v
    case Null => 0
    case Boolean(_) => 1
    case Int(_) => 2
    case Long(_) => 3
    case Float(_) => 4
    case Double(_) => 5
    case Bytes(_) => 6
    case String(_) => 7
    case _ => 8
  }

  function KindFor(s: Schema): nat {
    match s
    case SNull => 0
    case SBoolean => 1
    case SInt => 2
    case SLong => 3
    case SFloat => 4
    case SDouble => 5
    case SBytes => 6
    case SString => 7
    case _ => 9
  }

  /** What a `String` holds. */
  predicate TextFits(t: Text) {
    |t| < TWO_63 && IsUtf8(t)
  }

  /** Bits and lengths stay within their fields. */
  ghost predicate Bounded(v: Value) {
    && (v.Float? ==> v.f < TWO_32) && (v.Double? ==> v.d < TWO_64)
    && (v.Bytes? ==> |v.bytes| < TWO_63) && (v.String? ==> TextFits(v.text))
  }

  ghost predicate PlainFits(v: Value, s: Schema) {
    KindOf(v) == KindFor(s) && Bounded(v)
  }

  /** Map entries have keys, array elements have none. */
  predicate KeyFits(isMap: bool, key: Text) {
    if isMap then TextFits(key) else key == []
  }

  /** The wire value has the form the schema asks for. */
  ghost predicate Fits(w: Wire, s: Schema)
    decreases w
  {
    match w
    case Plain(v) => PlainFits(v, s)
    case WRecord(fs) =>
      && s.SRecord? && |fs| == |s.fields|
      && forall i :: 0 <= i < |fs| ==> fs[i].0 == s.fields[i].0 && Fits(fs[i].1, s.fields[i].1)
    case WBlocks(isMap, blocks) =>
      && (if isMap then s.SMap? else s.SArray?)
      && (forall b :: 0 <= b < |blocks| ==> 0 < |blocks[b].entries| < TWO_63)
      && (forall b, i :: 0 <= b < |blocks| && 0 <= i < |blocks[b].entries| ==>
           KeyFits(isMap, blocks[b].entries[i].0) && Fits(blocks[b].entries[i].1, s.item))
    case WUnion(idx, x) => s.SUnion? && idx < |s.opts| && idx < TWO_63 && Fits(x, s.opts[idx])
  }

  function PlainBytes(v: Value): seq<byte> {
    match v
    case Boolean(b) => [if b then 1 else 0]
    case Int(i) => PutLong(i)
    case Long(l) => PutLong(l)
    case Float(f) => LE(f, 4)
    case Double(d) => LE(d, 8)
    case Bytes(b) => if |b| < TWO_63 then PutBytes(b) else []
    case String(t) => if |t| < TWO_63 then PutBytes(t) else []
    case _ => []
  }

  function WireBytes(w: Wire): seq<byte>
    decreases w, 3, 0
  {
    match w
    case Plain(v) => PlainBytes(v)
    case WRecord(fs) => FieldBytes(w, 0)
    case WBlocks(_, blocks) => BlockBytes(w, 0)
    case WUnion(idx, x) => (if idx < TWO_63 then PutLong(idx) else []) + WireBytes(x)
  }

  function FieldBytes(w: Wire, i: nat): seq<byte>
    requires w.WRecord? && i <= |w.fields|
    decreases w, 2, |w.fields| - i
  {
    if i == |w.fields| then [] else WireBytes(w.fields[i].1) + FieldBytes(w, i + 1)
  }

  function CountBytes(b: Block): seq<byte> {
    if |b.entries| >= TWO_63 then [] else
    match b.size
    case None => PutLong(|b.entries|)
    case Some(size) => PutLong(-(|b.entries| as int)) + PutLong(size)
  }

  /** The blocks from number `b` on, and the zero count that ends them. */
  function BlockBytes(w: Wire, b: nat): seq<byte>
    requires w.WBlocks? && b <= |w.blocks|
    decreases w, 2, |w.blocks| - b
  {
    if b == |w.blocks| then PutLong(0) else
    CountBytes(w.blocks[b]) + (EntryBytes(w, b, 0) + BlockBytes(w, b + 1))
  }

  function EntryBytes(w: Wire, b: nat, i: nat): seq<byte>
    requires w.WBlocks? && b < |w.blocks| && i <= |w.blocks[b].entries|
    decreases w, 1, |w.blocks[b].entries| - i
  {
    if i == |w.blocks[b].entries| then [] else OneEntry(w, b, i) + EntryBytes(w, b, i + 1)
  }

  function OneEntry(w: Wire, b: nat, i: nat): seq<byte>
    requires w.WBlocks? && b < |w.blocks| && i < |w.blocks[b].entries|
    decreases w, 0, 0
  {
    var e := w.blocks[b].entries[i];
    (if w.isMap && |e.0| < TWO_63 then PutBytes(e.0) else []) + WireBytes(e.1)
  }

  // ---- the value meant ----

  function ValueOf(w: Wire): Value
    decreases w, 3, 0
  {
    match w
    case Plain(v) => v
    case WRecord(fs) => Record(FieldValues(w, 0))
    case WBlocks(isMap, blocks) => if isMap then Map(BlockValues(w, 0)) else Array(Values(BlockValues(w, 0)))
    case WUnion(idx, x) => Union(idx, ValueOf(x))
  }

  function FieldValues(w: Wire, i: nat): seq<(Text, Value)>
    requires w.WRecord? && i <= |w.fields|
    decreases w, 2, |w.fields| - i
  {
    if i == |w.fields| then [] else [(w.fields[i].0, ValueOf(w.fields[i].1))] + FieldValues(w, i + 1)
  }

  function BlockValues(w: Wire, b: nat): seq<(Text, Value)>
    requires w.WBlocks? && b <= |w.blocks|
    decreases w, 2, |w.blocks| - b
  {
    if b == |w.blocks| then [] else EntryValues(w, b, 0) + BlockValues(w, b + 1)
  }

  function EntryValues(w: Wire, b: nat, i: nat): seq<(Text, Value)>
    requires w.WBlocks? && b < |w.blocks| && i <= |w.blocks[b].entries|
    decreases w, 1, |w.blocks[b].entries| - i
  {
    if i == |w.blocks[b].entries| then [] else
    [(w.blocks[b].entries[i].0, ValueOf(w.blocks[b].entries[i].1))] + EntryValues(w, b, i + 1)
  }

  // ---- decoding gives it back ----

  lemma DecodePlain(v: Value, s: Schema, buf: seq<byte>, pos: nat)
    requires PlainFits(v, s) && At(buf, pos, PlainBytes(v))
    ensures pos <= |buf| && Decode(s, buf, pos) == Some((v, pos + |PlainBytes(v)|))
  {
    hide PutLong, GetLong, PutBytes, GetBytes, LE, FromLE, IsUtf8;
    match v {
      case Boolean(b) => assert buf[pos] == buf[pos..pos + 1][0];
      case Int(i) => GetLongAt(buf, pos, i);
      case Long(l) => GetLongAt(buf, pos, l);
      case Float(f) => Widths(); FromLEOfLE(f, 4);
      case Double(d) => Widths(); FromLEOfLE(d, 8);
      case Bytes(b) => GetBytesAt(buf, pos, b);
      case String(t) => GetBytesAt(buf, pos, t);
      case _ =>
    }
  }

  lemma CountAt(b: Block, buf: seq<byte>, pos: nat)
    requires 0 < |b.entries| < TWO_63 && At(buf, pos, CountBytes(b))
    ensures pos <= |buf| && DecodeCount(buf, pos) == Some((|b.entries|, pos + |CountBytes(b)|))
  {
    hide PutLong, GetLong;
    match b.size {
      case None => GetLongAt(buf, pos, |b.entries|);
      case Some(size) =>
        AtParts(buf, pos, PutLong(-(|b.entries| as int)), PutLong(size));
        GetLongAt(buf, pos, -(|b.entries| as int));
        GetLongAt(buf, pos + |PutLong(-(|b.entries| as int))|, size);
    }
  }

  /** Wherever an encoding stands in a buffer, in any split of its arrays and maps into blocks, decoding gives the
      value and stops exactly at its end. */
  lemma {:induction false} DecodeWire(w: Wire, s: Schema, buf: seq<byte>, pos: nat)
    requires Fits(w, s) && At(buf, pos, WireBytes(w))
    ensures pos <= |buf| && Decode(s, buf, pos) == Some((ValueOf(w), pos + |WireBytes(w)|))
    decreases w, 3, 0
  {
    hide PutLong, GetLong, PlainBytes, At, DecodeFields, DecodeBlocks, FieldBytes, BlockBytes, FieldValues, BlockValues;
    AtInside(buf, pos, WireBytes(w));
    match w {
      case Plain(v) => DecodePlain(v, s, buf, pos);
      case WRecord(fs) => DecodeFieldsOf(w, s, 0, buf, pos);
      case WBlocks(isMap, blocks) => DecodeBlocksOf(w, s, 0, buf, pos);
      case WUnion(idx, x) =>
        AtParts(buf, pos, PutLong(idx), WireBytes(x));
        GetLongAt(buf, pos, idx);
        DecodeWire(x, s.opts[idx], buf, pos + |PutLong(idx)|);
    }
  }

  lemma AtInside(b: seq<byte>, p: nat, x: seq<byte>)
    requires At(b, p, x)
    ensures p + |x| <= |b|
  {
  }

  lemma {:induction false} DecodeFieldsOf(w: Wire, s: Schema, i: nat, buf: seq<byte>, pos: nat)
    requires w.WRecord? && Fits(w, s) && i <= |w.fields| && At(buf, pos, FieldBytes(w, i))
    ensures pos <= |buf| && DecodeFields(s, i, buf, pos) == Some((FieldValues(w, i), pos + |FieldBytes(w, i)|))
    decreases w, 2, |w.fields| - i
  {
    hide At, Decode, WireBytes, ValueOf;
    AtInside(buf, pos, FieldBytes(w, i));
    if i < |w.fields| {
      var x := w.fields[i].1;
      AtParts(buf, pos, WireBytes(x), FieldBytes(w, i + 1));
      DecodeWire(x, s.fields[i].1, buf, pos);
      DecodeFieldsOf(w, s, i + 1, buf, pos + |WireBytes(x)|);
    }
  }

  lemma {:induction false} DecodeEntryOf(w: Wire, s: Schema, b: nat, i: nat, buf: seq<byte>, pos: nat)
    requires w.WBlocks? && Fits(w, s) && b < |w.blocks| && i < |w.blocks[b].entries| && At(buf, pos, OneEntry(w, b, i))
    ensures pos <= |buf|
    ensures var e := w.blocks[b].entries[i]; DecodeEntry(s, buf, pos) == Some(((e.0, ValueOf(e.1)), pos + |OneEntry(w, b, i)|))
    decreases w, 0, 0
  {
    hide At, Decode, WireBytes, ValueOf, PutBytes, GetBytes, IsUtf8;
    var e := w.blocks[b].entries[i];
    assert KeyFits(w.isMap, e.0) && Fits(e.1, s.item);
    AtInside(buf, pos, OneEntry(w, b, i));
    if w.isMap {
      AtParts(buf, pos, PutBytes(e.0), WireBytes(e.1));
      GetBytesAt(buf, pos, e.0);
      DecodeWire(e.1, s.item, buf, pos + |PutBytes(e.0)|);
    } else {
      assert [] + WireBytes(e.1) == WireBytes(e.1);
      DecodeWire(e.1, s.item, buf, pos);
    }
  }

  lemma {:induction false} DecodeEntriesOf(w: Wire, s: Schema, b: nat, i: nat, buf: seq<byte>, pos: nat)
    requires w.WBlocks? && Fits(w, s) && b < |w.blocks| && i <= |w.blocks[b].entries| && At(buf, pos, EntryBytes(w, b, i))
    ensures pos <= |buf|
    ensures DecodeEntries(s, |w.blocks[b].entries| - i, buf, pos) == Some((EntryValues(w, b, i), pos + |EntryBytes(w, b, i)|))
    decreases w, 1, |w.blocks[b].entries| - i
  {
    hide At, OneEntry, ValueOf, DecodeEntry;
    AtInside(buf, pos, EntryBytes(w, b, i));
    if i < |w.blocks[b].entries| {
      AtParts(buf, pos, OneEntry(w, b, i), EntryBytes(w, b, i + 1));
      DecodeEntryOf(w, s, b, i, buf, pos);
      DecodeEntriesOf(w, s, b, i + 1, buf, pos + |OneEntry(w, b, i)|);
    }
  }

  lemma {:induction false} DecodeBlocksOf(w: Wire, s: Schema, b: nat, buf: seq<byte>, pos: nat)
    requires w.WBlocks? && Fits(w, s) && b <= |w.blocks| && At(buf, pos, BlockBytes(w, b))
    ensures pos <= |buf| && DecodeBlocks(s, buf, pos) == Some((BlockValues(w, b), pos + |BlockBytes(w, b)|))
    decreases w, 2, |w.blocks| - b
  {
    hide At, EntryBytes, EntryValues, CountBytes, DecodeCount, DecodeEntries, PutLong;
    AtInside(buf, pos, BlockBytes(w, b));
    if b == |w.blocks| {
      ZeroCount(buf, pos);
    } else {
      var block := w.blocks[b];
      AtParts(buf, pos, CountBytes(block), EntryBytes(w, b, 0) + BlockBytes(w, b + 1));
      var p := pos + |CountBytes(block)|;
      AtParts(buf, p, EntryBytes(w, b, 0), BlockBytes(w, b + 1));
      CountAt(block, buf, pos);
      DecodeEntriesOf(w, s, b, 0, buf, p);
      DecodeBlocksOf(w, s, b + 1, buf, p + |EntryBytes(w, b, 0)|);
    }
  }

  lemma ZeroCount(buf: seq<byte>, pos: nat)
    requires At(buf, pos, PutLong(0))
    ensures pos <= |buf| && DecodeCount(buf, pos) == Some((0, pos + |PutLong(0)|))
  {
    hide PutLong, GetLong;
    GetLongAt(buf, pos, 0);
  }

  // ---- the encoder's own split: one block, or none ----

  ghost predicate Conforms(v: Value, s: Schema)
    decreases v
  {
    match v
    case Record(fs) =>
      && s.SRecord? && |fs| == |s.fields|
      && forall i :: 0 <= i < |fs| ==> fs[i].0 == s.fields[i].0 && Conforms(fs[i].1, s.fields[i].1)
    case Array(items) => s.SArray? && |items| < TWO_63 && forall i :: 0 <= i < |items| ==> Conforms(items[i], s.item)
    case Map(es) =>
      s.SMap? && |es| < TWO_63 && forall i :: 0 <= i < |es| ==> TextFits(es[i].0) && Conforms(es[i].1, s.item)
    case Union(idx, x) => s.SUnion? && idx < |s.opts| && idx < TWO_63 && Conforms(x, s.opts[idx])
    case _ => PlainFits(v, s)
  }

  function Canon(v: Value): (w: Wire)
    decreases v, 1, 0
  {
    match v
    case Record(fs) => WRecord(CanonFields(v, 0))
    case Array(items) => WBlocks(false, if items == [] then [] else [Block(None, CanonItems(v, 0))])
    case Map(es) => WBlocks(true, if es == [] then [] else [Block(None, CanonFields(v, 0))])
    case Union(idx, x) => WUnion(idx, Canon(x))
    case _ => Plain(v)
  }

  function Entries(v: Value): seq<(Text, Value)> {
    match v
    case Record(fs) => fs
    case Map(es) => es
    case _ => []
  }

  function CanonFields(v: Value, i: nat): (fs: seq<(Text, Wire)>)
    requires i <= |Entries(v)|
    ensures |fs| == |Entries(v)| - i
    decreases v, 0, |Entries(v)| - i
  {
    match v
    case Record(fs) => if i == |fs| then [] else [(fs[i].0, Canon(fs[i].1))] + CanonFields(v, i + 1)
    case Map(fs) => if i == |fs| then [] else [(fs[i].0, Canon(fs[i].1))] + CanonFields(v, i + 1)
    case _ => []
  }

  function CanonItems(v: Value, i: nat): (es: seq<(Text, Wire)>)
    requires v.Array? && i <= |v.items|
    ensures |es| == |v.items| - i
    decreases v, 0, |v.items| - i
  {
    if i == |v.items| then [] else [([], Canon(v.items[i]))] + CanonItems(v, i + 1)
  }

  lemma {:induction false} CanonFieldsAt(v: Value, i: nat, k: nat)
    requires i <= |Entries(v)| && k < |Entries(v)| - i
    ensures CanonFields(v, i)[k] == (Entries(v)[i + k].0, Canon(Entries(v)[i + k].1))
    decreases |Entries(v)| - i
  {
    hide Canon;
    if k > 0 {
      CanonFieldsAt(v, i + 1, k - 1);
    }
  }

  lemma {:induction false} CanonItemsAt(v: Value, i: nat, k: nat)
    requires v.Array? && i <= |v.items| && k < |v.items| - i
    ensures CanonItems(v, i)[k] == ([], Canon(v.items[i + k]))
    decreases |v.items| - i
  {
    hide Canon;
    if k > 0 {
      CanonItemsAt(v, i + 1, k - 1);
    }
  }

  /** The values of the fields of a record are the fields, once each field's value is. */
  lemma {:induction false} FieldValuesAre(w: Wire, fs: seq<(Text, Value)>, i: nat)
    requires w.WRecord? && |w.fields| == |fs| && i <= |fs|
    requires forall k :: 0 <= k < |fs| ==> w.fields[k].0 == fs[k].0 && ValueOf(w.fields[k].1) == fs[k].1
    ensures FieldValues(w, i) == fs[i..]
    decreases |fs| - i
  {
    hide ValueOf;
    if i < |fs| {
      FieldValuesAre(w, fs, i + 1);
      assert fs[i..] == [fs[i]] + fs[i + 1..];
    }
  }

  lemma {:induction false} EntryValuesAre(w: Wire, b: nat, es: seq<(Text, Value)>, i: nat)
    requires w.WBlocks? && b < |w.blocks| && |w.blocks[b].entries| == |es| && i <= |es|
    requires forall k :: 0 <= k < |es| ==> w.blocks[b].entries[k].0 == es[k].0 && ValueOf(w.blocks[b].entries[k].1) == es[k].1
    ensures EntryValues(w, b, i) == es[i..]
    decreases |es| - i
  {
    hide ValueOf;
    if i < |es| {
      EntryValuesAre(w, b, es, i + 1);
      assert es[i..] == [es[i]] + es[i + 1..];
    }
  }

  /** A list of no or one block holds its entries. */
  lemma OneBlock(w: Wire, es: seq<(Text, Value)>)
    requires w.WBlocks? && (if es == [] then w.blocks == [] else |w.blocks| == 1 && |w.blocks[0].entries| == |es|)
    requires forall k :: 0 <= k < |es| ==> w.blocks[0].entries[k].0 == es[k].0 && ValueOf(w.blocks[0].entries[k].1) == es[k].1
    ensures BlockValues(w, 0) == es
  {
    hide ValueOf, EntryValues;
    if es != [] {
      EntryValuesAre(w, 0, es, 0);
      assert BlockValues(w, 1) == [];
      assert es[0..] + [] == es;
    }
  }

  function Keyless(items: seq<Value>): (es: seq<(Text, Value)>)
    ensures |es| == |items| && forall i :: 0 <= i < |es| ==> es[i] == ([], items[i])
  {
    seq(|items|, i requires 0 <= i < |items| => ([], items[i]))
  }

  /** An encoded child: its key, and a wire value that fits and means it. */
  ghost predicate ChildMeans(e: (Text, Wire), key: Text, v: Value, s: Schema) {
    e == (key, Canon(v)) && Fits(Canon(v), s) && ValueOf(Canon(v)) == v
  }

  lemma RecordMeans(v: Value, s: Schema)
    requires v.Record? && Conforms(v, s)
    requires forall i :: 0 <= i < |v.fields| ==> ChildMeans(CanonFields(v, 0)[i], v.fields[i].0, v.fields[i].1, s.fields[i].1)
    ensures Means(v, s)
  {
    hide CanonFields, FieldValues;
    FieldValuesAre(Canon(v), v.fields, 0);
    assert v.fields[0..] == v.fields;
  }

  lemma MapMeans(v: Value, s: Schema)
    requires v.Map? && Conforms(v, s)
    requires forall i :: 0 <= i < |v.entries| ==> ChildMeans(CanonFields(v, 0)[i], v.entries[i].0, v.entries[i].1, s.item)
    ensures Means(v, s)
  {
    hide CanonFields, BlockValues;
    OneBlock(Canon(v), v.entries);
  }

  lemma ArrayMeans(v: Value, s: Schema)
    requires v.Array? && Conforms(v, s)
    requires forall i :: 0 <= i < |v.items| ==> ChildMeans(CanonItems(v, 0)[i], [], v.items[i], s.item)
    ensures Means(v, s)
  {
    hide CanonItems, BlockValues;
    OneBlock(Canon(v), Keyless(v.items));
    assert Values(Keyless(v.items)) == v.items;
  }

  lemma PlainMeans(v: Value, s: Schema)
    requires !v.Record? && !v.Map? && !v.Array? && !v.Union? && Conforms(v, s)
    ensures Means(v, s)
  {
  }

  lemma UnionMeans(v: Value, s: Schema)
    requires v.Union? && Conforms(v, s) && Means(v.v, s.opts[v.idx])
    ensures Means(v, s)
  {
  }

  lemma RecordPart(v: Value, s: Schema, i: nat)
    requires v.Record? && Conforms(v, s) && i < |v.fields|
    ensures s.SRecord? && |v.fields| == |s.fields| && Conforms(v.fields[i].1, s.fields[i].1)
  {
  }

  lemma MapPart(v: Value, s: Schema, i: nat)
    requires v.Map? && Conforms(v, s) && i < |v.entries|
    ensures s.SMap? && Conforms(v.entries[i].1, s.item)
  {
  }

  lemma ArrayPart(v: Value, s: Schema, i: nat)
    requires v.Array? && Conforms(v, s) && i < |v.items|
    ensures s.SArray? && Conforms(v.items[i], s.item)
  {
  }

  lemma Kinds(v: Value, s: Schema)
    requires Conforms(v, s)
    ensures v.Record? ==> s.SRecord? && |v.fields| == |s.fields|
    ensures v.Map? ==> s.SMap?
    ensures v.Array? ==> s.SArray?
    ensures v.Union? ==> s.SUnion? && v.idx < |s.opts| && Conforms(v.v, s.opts[v.idx])
  {
  }

  /** The wire value of `v` fits the schema and means `v`. */
  ghost predicate Means(v: Value, s: Schema) {
    Fits(Canon(v), s) && ValueOf(Canon(v)) == v
  }

  lemma ChildIs(e: (Text, Wire), key: Text, v: Value, s: Schema)
    requires e == (key, Canon(v)) && Means(v, s)
    ensures ChildMeans(e, key, v, s)
  {
    hide Fits, Canon, ValueOf;
  }

  lemma {:induction false} CanonRecord(v: Value, s: Schema)
    requires v.Record? && Conforms(v, s)
    ensures Means(v, s)
    decreases v, 0
  {
    hide Conforms, Means, CanonFields, ChildMeans;
    Kinds(v, s);
    forall i | 0 <= i < |v.fields| ensures ChildMeans(CanonFields(v, 0)[i], v.fields[i].0, v.fields[i].1, s.fields[i].1) {
      CanonFieldsAt(v, 0, i);
      RecordPart(v, s, i);
      CanonMeans(v.fields[i].1, s.fields[i].1);
      ChildIs(CanonFields(v, 0)[i], v.fields[i].0, v.fields[i].1, s.fields[i].1);
    }
    RecordMeans(v, s);
  }

  lemma {:induction false} CanonMap(v: Value, s: Schema)
    requires v.Map? && Conforms(v, s)
    ensures Means(v, s)
    decreases v, 0
  {
    hide Conforms, Means, CanonFields, ChildMeans;
    Kinds(v, s);
    forall i | 0 <= i < |v.entries| ensures ChildMeans(CanonFields(v, 0)[i], v.entries[i].0, v.entries[i].1, s.item) {
      CanonFieldsAt(v, 0, i);
      MapPart(v, s, i);
      CanonMeans(v.entries[i].1, s.item);
      ChildIs(CanonFields(v, 0)[i], v.entries[i].0, v.entries[i].1, s.item);
    }
    MapMeans(v, s);
  }

  lemma {:induction false} CanonArray(v: Value, s: Schema)
    requires v.Array? && Conforms(v, s)
    ensures Means(v, s)
    decreases v, 0
  {
    hide Conforms, Means, CanonItems, ChildMeans;
    Kinds(v, s);
    forall i | 0 <= i < |v.items| ensures ChildMeans(CanonItems(v, 0)[i], [], v.items[i], s.item) {
      CanonItemsAt(v, 0, i);
      ArrayPart(v, s, i);
      CanonMeans(v.items[i], s.item);
      ChildIs(CanonItems(v, 0)[i], [], v.items[i], s.item);
    }
    ArrayMeans(v, s);
  }

  /** What the encoder writes for a conforming value fits the schema and means that value. */
  lemma {:induction false} CanonMeans(v: Value, s: Schema)
    requires Conforms(v, s)
    ensures Means(v, s)
    decreases v, 1
  {
    hide Conforms, Means;
    match v {
      case Record(_) => CanonRecord(v, s);
      case Map(_) => CanonMap(v, s);
      case Array(_) => CanonArray(v, s);
      case Union(idx, x) =>
        Kinds(v, s);
        CanonMeans(x, s.opts[idx]);
        UnionMeans(v, s);
      case _ => PlainMeans(v, s);
    }
  }

  /** The bytes `encode` appends for a value. */
  function Encoded(v: Value): seq<byte> {
    WireBytes(Canon(v))
  }

  /** Encoding and decoding undo each other anywhere in a buffer. */
  lemma RoundTrip(v: Value, s: Schema, buf: seq<byte>, pos: nat)
    requires Conforms(v, s) && At(buf, pos, Encoded(v))
    ensures pos <= |buf| && Decode(s, buf, pos) == Some((v, pos + |Encoded(v)|))
  {
    hide Conforms, Canon, WireBytes, Decode, Fits, ValueOf, At;
    CanonMeans(v, s);
    DecodeWire(Canon(v), s, buf, pos);
  }
}
