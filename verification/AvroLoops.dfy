/** The loops of `encode` and `decode`: the buffer that grows and the position that moves along it. */
module AvroLoops {
  import opened Wrappers
  import opened Bytes
  import opened Unicode
  import opened Pages
  import opened Avro

  // ---- encoding ----

  method WriteLong(out: seq<byte>, n: i64) returns (r: seq<byte>)
    ensures r == out + PutLong(n)
  {
    r := PutVarint(out, Zigzag(n));
  }

  method WriteBytes(out: seq<byte>, b: seq<byte>) returns (r: seq<byte>)
    requires |b| < TWO_63
    ensures r == out + PutBytes(b)
  {
    r := WriteLong(out, |b|);
    r := r + b;
    assert r == out + (PutLong(|b|) + b);
  }

  method WritePlain(v: Value, out: seq<byte>) returns (r: seq<byte>)
    requires KindOf(v) < 8 && Bounded(v)
    ensures r == out + PlainBytes(v)
  {
    hide PutLong, PutBytes;
    match v {
      case Boolean(b) => r := out + [if b then 1 else 0];
      case Int(i) => r := WriteLong(out, i);
      case Long(l) => r := WriteLong(out, l);
      case Float(f) => r := out + LE(f, 4);
      case Double(d) => r := out + LE(d, 8);
      case Bytes(b) => r := WriteBytes(out, b);
      case String(t) => r := WriteBytes(out, t);
      case _ => r := out;
    }
  }

  lemma FieldWritten(v: Value, i: nat, before: seq<byte>)
    requires v.Record? && i < |v.fields|
    ensures |Canon(v).fields| == |v.fields|
    ensures before + FieldBytes(Canon(v), i) == before + Encoded(v.fields[i].1) + FieldBytes(Canon(v), i + 1)
  {
    hide WireBytes, CanonFields;
    CanonFieldsAt(v, 0, i);
  }

  lemma FieldsEnd(v: Value, r: seq<byte>)
    requires v.Record?
    ensures |Canon(v).fields| == |v.fields| && r + FieldBytes(Canon(v), |v.fields|) == r
  {
    hide CanonFields;
  }

  /** The children of an array or a map. */
  function Children(v: Value): nat {
    match v
    case Array(items) => |items|
    case Map(es) => |es|
    case _ => 0
  }

  function KeyOf(v: Value, i: nat): Text
    requires i < Children(v)
  {
    if v.Array? then [] else v.entries[i].0
  }

  function ChildOf(v: Value, i: nat): (c: Value)
    requires i < Children(v)
    ensures c < v
  {
    if v.Array? then v.items[i] else v.entries[i].1
  }

  /** The single block of an array or a map with children. */
  lemma OneBlockOf(v: Value)
    requires (v.Array? || v.Map?) && Children(v) > 0
    ensures Canon(v).WBlocks? && Canon(v).isMap == v.Map?
    ensures |Canon(v).blocks| == 1 && Canon(v).blocks[0].size.None? && |Canon(v).blocks[0].entries| == Children(v)
    ensures forall i :: 0 <= i < Children(v) ==> Canon(v).blocks[0].entries[i] == (KeyOf(v, i), Canon(ChildOf(v, i)))
  {
    hide CanonFields, CanonItems;
    forall i | 0 <= i < Children(v) ensures Canon(v).blocks[0].entries[i] == (KeyOf(v, i), Canon(ChildOf(v, i))) {
      if v.Array? {
        CanonItemsAt(v, 0, i);
      } else {
        CanonFieldsAt(v, 0, i);
      }
    }
  }

  lemma EntryWritten(v: Value, i: nat, before: seq<byte>)
    requires (v.Array? || v.Map?) && i < Children(v) && (v.Map? ==> |KeyOf(v, i)| < TWO_63)
    requires Canon(v).WBlocks? && |Canon(v).blocks| == 1 && |Canon(v).blocks[0].entries| == Children(v)
    ensures before + EntryBytes(Canon(v), 0, i)
         == before + (if v.Map? then PutBytes(KeyOf(v, i)) else []) + Encoded(ChildOf(v, i)) + EntryBytes(Canon(v), 0, i + 1)
  {
    hide WireBytes, Canon, PutBytes;
    OneBlockOf(v);
    var key := if v.Map? then PutBytes(KeyOf(v, i)) else [];
    assert before + ((key + Encoded(ChildOf(v, i))) + EntryBytes(Canon(v), 0, i + 1))
        == before + key + Encoded(ChildOf(v, i)) + EntryBytes(Canon(v), 0, i + 1);
  }

  lemma ChildConforms(v: Value, s: Schema, i: nat)
    requires (v.Array? || v.Map?) && i < Children(v) && Conforms(v, s)
    ensures (v.Map? ==> s.SMap? && TextFits(KeyOf(v, i))) && (v.Array? ==> s.SArray?)
    ensures Conforms(ChildOf(v, i), s.item)
  {
  }

  lemma ChildCount(v: Value, s: Schema)
    requires (v.Array? || v.Map?) && Conforms(v, s)
    ensures Children(v) < TWO_63 && (s.SArray? || s.SMap?)
  {
  }

  /** The encoding of an array or a map: a count and the children, if there are any, and a zero count. */
  lemma BlocksWritten(v: Value)
    requires (v.Array? || v.Map?) && Children(v) < TWO_63
    ensures Children(v) == 0 ==> Encoded(v) == PutLong(0)
    ensures Children(v) > 0 ==>
      && Canon(v).WBlocks? && |Canon(v).blocks| == 1 && |Canon(v).blocks[0].entries| == Children(v)
      && Encoded(v) == PutLong(Children(v)) + (EntryBytes(Canon(v), 0, 0) + PutLong(0))
  {
    hide EntryBytes, PutLong, CanonItems, CanonFields;
    var w := Canon(v);
    assert WireBytes(w) == BlockBytes(w, 0);
    if Children(v) > 0 {
      OneBlockOf(v);
      assert BlockBytes(w, 1) == PutLong(0);
      assert CountBytes(w.blocks[0]) == PutLong(Children(v));
    } else {
      assert w.blocks == [];
    }
  }

  method EncodeValue(v: Value, s: Schema, out: seq<byte>) returns (r: seq<byte>)
    requires Conforms(v, s)
    ensures r == out + Encoded(v)
    ensures v.Boolean? ==> r == out + [if v.b then 1 else 0]
    decreases v, 2
  {
    hide Conforms, Canon, WireBytes;
    Kinds(v, s);
    match v {
      case Record(fs) =>
        r := EncodeFields(v, s, out);
        RecordEncoded(v);
      case Array(_) => r := EncodeBlocks(v, s, out);
      case Map(_) => r := EncodeBlocks(v, s, out);
      case Union(idx, x) =>
        UnionEncoded(v, s);
        r := WriteLong(out, idx);
        r := EncodeValue(x, s.opts[idx], r);
        assert r == out + (PutLong(idx) + Encoded(x));
      case _ =>
        PlainEncoded(v, s);
        r := WritePlain(v, out);
    }
  }

  lemma RecordEncoded(v: Value)
    requires v.Record?
    ensures Canon(v).WRecord? && Encoded(v) == FieldBytes(Canon(v), 0)
  {
    hide FieldBytes, CanonFields;
  }

  lemma UnionEncoded(v: Value, s: Schema)
    requires v.Union? && Conforms(v, s)
    ensures v.idx < TWO_63 && Encoded(v) == PutLong(v.idx) + Encoded(v.v)
  {
    hide PutLong;
  }

  lemma PlainEncoded(v: Value, s: Schema)
    requires !v.Record? && !v.Map? && !v.Array? && !v.Union? && Conforms(v, s)
    ensures KindOf(v) < 8 && Bounded(v) && Encoded(v) == PlainBytes(v)
  {
    hide PlainBytes;
  }

  method EncodeFields(v: Value, s: Schema, out: seq<byte>) returns (r: seq<byte>)
    requires v.Record? && Conforms(v, s)
    ensures Canon(v).WRecord? && r == out + FieldBytes(Canon(v), 0)
    decreases v, 1
  {
    hide Conforms, FieldBytes, Encoded, CanonFields;
    Kinds(v, s);
    r := out;
    for i := 0 to |v.fields|
      invariant |Canon(v).fields| == |v.fields| && r + FieldBytes(Canon(v), i) == out + FieldBytes(Canon(v), 0)
    {
      FieldWritten(v, i, r);
      RecordPart(v, s, i);
      r := EncodeValue(v.fields[i].1, s.fields[i].1, r);
    }
    FieldsEnd(v, r);
  }

  method EncodeBlocks(v: Value, s: Schema, out: seq<byte>) returns (r: seq<byte>)
    requires (v.Array? || v.Map?) && Conforms(v, s)
    ensures r == out + Encoded(v)
    decreases v, 1
  {
    hide Conforms, EntryBytes, Encoded, Canon, PutLong, PutBytes;
    ChildCount(v, s);
    BlocksWritten(v);
    r := out;
    if Children(v) > 0 {
      r := WriteLong(r, Children(v));
      ghost var start := r;
      for i := 0 to Children(v)
        invariant r + EntryBytes(Canon(v), 0, i) == start + EntryBytes(Canon(v), 0, 0)
      {
        ChildConforms(v, s, i);
        EntryWritten(v, i, r);
        if v.Map? {
          r := WriteBytes(r, KeyOf(v, i));
        } else {
          assert r + [] == r;
        }
        r := EncodeValue(ChildOf(v, i), s.item, r);
      }
      EntriesEnd(v, r);
      r := WriteLong(r, 0);
      assert r == out + (PutLong(Children(v)) + (EntryBytes(Canon(v), 0, 0) + PutLong(0)));
    } else {
      r := WriteLong(r, 0);
    }
  }

  lemma EntriesEnd(v: Value, r: seq<byte>)
    requires Canon(v).WBlocks? && |Canon(v).blocks| == 1 && |Canon(v).blocks[0].entries| == Children(v)
    ensures r + EntryBytes(Canon(v), 0, Children(v)) == r
  {
    hide Canon;
  }

  // ---- decoding ----

  ghost function Onto<T>(acc: seq<T>, more: Option<(seq<T>, nat)>): Option<(seq<T>, nat)> {
    match more
    case None => None
    case Some((xs, k)) => Some((acc + xs, k))
  }

  lemma OntoNone<T>(acc: seq<T>, k: nat, more: Option<(seq<T>, nat)>)
    ensures Onto([], more) == more && Onto(acc, Some(([], k))) == Some((acc, k))
  {
    assert more.Some? ==> [] + more.value.0 == more.value.0;
    assert acc + [] == acc;
  }

  lemma OntoSome<T>(acc: seq<T>, xs: seq<T>, more: Option<(seq<T>, nat)>)
    requires more.Some?
    ensures Onto(acc, Some((xs + more.value.0, more.value.1))) == Onto(acc + xs, more)
  {
    assert acc + (xs + more.value.0) == acc + xs + more.value.0;
  }

  method ReadLong(buf: seq<byte>, pos: nat) returns (r: Option<(i64, nat)>)
    requires pos <= |buf|
    ensures r == GetLong(buf, pos)
  {
    hide ReadVarint, Unzigzag;
    var got := GetVarint(buf, pos);
    if got.None? {
      return None;
    }
    ReadVarintBound(buf[pos..], 0);
    RoomForU64();
    r := Some((Unzigzag(got.value.0), got.value.1));
    assert |buf[got.value.1..]| == |buf| - got.value.1;
  }

  method DecodeValue(s: Schema, buf: seq<byte>, pos: nat) returns (r: Option<(Value, nat)>)
    requires pos <= |buf|
    ensures r == Decode(s, buf, pos)
    decreases s, 3, 0
  {
    hide GetLong, GetBytes, GetText, DecodeFields, DecodeBlocks, FromLE;
    match s {
      case SNull => r := Some((Null, pos));
      case SBoolean => r := if pos == |buf| then None else Some((Boolean(buf[pos] != 0), pos + 1));
      case SInt =>
        var n := ReadLong(buf, pos);
        r := if n.None? then None else Some((Int(ToI32(n.value.0)), n.value.1));
      case SLong =>
        var n := ReadLong(buf, pos);
        r := if n.None? then None else Some((Long(n.value.0), n.value.1));
      case SFloat => r := if pos + 4 > |buf| then None else Some((Float(FromLE(buf[pos..pos + 4])), pos + 4));
      case SDouble => r := if pos + 8 > |buf| then None else Some((Double(FromLE(buf[pos..pos + 8])), pos + 8));
      case SBytes =>
        var b := GetBytes(buf, pos);
        r := if b.None? then None else Some((Bytes(b.value.0), b.value.1));
      case SString =>
        var b := GetText(buf, pos);
        r := if b.None? then None else Some((String(b.value.0), b.value.1));
      case SRecord(_, fields) =>
        var fs := ReadFields(s, buf, pos);
        r := if fs.None? then None else Some((Record(fs.value.0), fs.value.1));
      case SArray(_) =>
        var es := ReadBlocks(s, buf, pos);
        r := if es.None? then None else Some((Array(Values(es.value.0)), es.value.1));
      case SMap(_) =>
        var es := ReadBlocks(s, buf, pos);
        r := if es.None? then None else Some((Map(es.value.0), es.value.1));
      case SUnion(opts) =>
        var i := ReadLong(buf, pos);
        if i.None? || i.value.0 < 0 || i.value.0 >= |opts| {
          return None;
        }
        var v := DecodeValue(opts[i.value.0], buf, i.value.1);
        r := if v.None? then None else Some((Union(i.value.0, v.value.0), v.value.1));
    }
  }

  method ReadFields(s: Schema, buf: seq<byte>, start: nat) returns (r: Option<(seq<(Text, Value)>, nat)>)
    requires s.SRecord? && start <= |buf|
    ensures r == DecodeFields(s, 0, buf, start)
    decreases s, 2, 0
  {
    hide Decode;
    var fs: seq<(Text, Value)> := [];
    var pos := start;
    OntoNone(fs, pos, DecodeFields(s, 0, buf, start));
    for i := 0 to |s.fields|
      invariant start <= pos <= |buf| && Onto(fs, DecodeFields(s, i, buf, pos)) == DecodeFields(s, 0, buf, start)
    {
      var v := DecodeValue(s.fields[i].1, buf, pos);
      if v.None? {
        return None;
      }
      ghost var more := DecodeFields(s, i + 1, buf, v.value.1);
      if more.Some? {
        OntoSome(fs, [(s.fields[i].0, v.value.0)], more);
      }
      fs, pos := fs + [(s.fields[i].0, v.value.0)], v.value.1;
    }
    OntoNone(fs, pos, None);
    r := Some((fs, pos));
  }

  method ReadEntry(s: Schema, buf: seq<byte>, pos: nat) returns (r: Option<((Text, Value), nat)>)
    requires (s.SArray? || s.SMap?) && pos <= |buf|
    ensures r == DecodeEntry(s, buf, pos)
    decreases s, 0, 0
  {
    hide Decode, GetText;
    var key: Text, p := [], pos;
    if s.SMap? {
      var k := GetText(buf, pos);
      if k.None? {
        return None;
      }
      key, p := k.value.0, k.value.1;
    }
    var v := DecodeValue(s.item, buf, p);
    r := if v.None? then None else Some(((key, v.value.0), v.value.1));
  }

  method ReadEntries(s: Schema, n: nat, buf: seq<byte>, start: nat) returns (r: Option<(seq<(Text, Value)>, nat)>)
    requires (s.SArray? || s.SMap?) && start <= |buf|
    ensures r == DecodeEntries(s, n, buf, start)
    decreases s, 1, 0
  {
    hide DecodeEntry;
    var es: seq<(Text, Value)> := [];
    var pos := start;
    OntoNone(es, pos, DecodeEntries(s, n, buf, start));
    for i := 0 to n
      invariant start <= pos <= |buf| && Onto(es, DecodeEntries(s, n - i, buf, pos)) == DecodeEntries(s, n, buf, start)
    {
      var e := ReadEntry(s, buf, pos);
      if e.None? {
        return None;
      }
      ghost var more := DecodeEntries(s, n - i - 1, buf, e.value.1);
      if more.Some? {
        OntoSome(es, [e.value.0], more);
      }
      es, pos := es + [e.value.0], e.value.1;
    }
    OntoNone(es, pos, None);
    r := Some((es, pos));
  }

  /** The loop over the blocks of an array or a map. */
  method ReadBlocks(s: Schema, buf: seq<byte>, start: nat) returns (r: Option<(seq<(Text, Value)>, nat)>)
    requires (s.SArray? || s.SMap?) && start <= |buf|
    ensures r == DecodeBlocks(s, buf, start)
    decreases s, 2, 0
  {
    hide DecodeEntries, DecodeCount;
    var es: seq<(Text, Value)> := [];
    var pos := start;
    OntoNone(es, pos, DecodeBlocks(s, buf, start));
    while true
      invariant start <= pos <= |buf| && Onto(es, DecodeBlocks(s, buf, pos)) == DecodeBlocks(s, buf, start)
      decreases |buf| - pos
    {
      var n := DecodeCount(buf, pos);
      if n.None? {
        return None;
      }
      if n.value.0 == 0 {
        OntoNone(es, n.value.1, None);
        return Some((es, n.value.1));
      }
      var block := ReadEntries(s, n.value.0, buf, n.value.1);
      if block.None? {
        return None;
      }
      ghost var more := DecodeBlocks(s, buf, block.value.1);
      if more.Some? {
        OntoSome(es, block.value.0, more);
      }
      es, pos := es + block.value.0, block.value.1;
    }
  }
}
