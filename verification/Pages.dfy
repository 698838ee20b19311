/** Int64 pages: deltas, zigzag, variable-length integers, then LZ4. */
module Pages {
  import opened Wrappers
  import opened Bytes
  import Lz4

  const PAGE_ROWS: nat := 8192

  /** Small magnitudes of either sign become small naturals. */
  function Zigzag(n: i64): (u: nat)
    ensures u < TWO_64
  {
    if n >= 0 then 2 * n else -2 * n - 1
  }

  function Unzigzag(u: nat): i64
    requires u < TWO_64
  {
    if u % 2 == 0 then u / 2 else -(u / 2) - 1
  }

  function Varint(v: nat): (b: seq<byte>)
    ensures |b| >= 1
  {
    if v < 128 then [v] else [v % 128 + 128] + Varint(v / 128)
  }

  /** What byte number `k` of a varint adds to a 64-bit value: the tenth has room for one bit. */
  function Digit(b: byte, k: nat): nat {
    if k < 9 then b % 128 else b % 2
  }

  /** Reading past the buffer, or shifting past 64 bits, is a panic. */
  function ReadVarint(rest: seq<byte>, k: nat): Option<(nat, seq<byte>)> {
    if rest == [] || k >= 10 then None
    else if rest[0] < 128 then Some((Digit(rest[0], k), rest[1..]))
    else
      var (v, rest') :- ReadVarint(rest[1..], k + 1);
      Some((Digit(rest[0], k) + 128 * v, rest'))
  }

  /** The values that fit in what remains of 64 bits after `k` bytes. */
  function Room(k: nat): (r: nat)
    requires k <= 9
    ensures r >= 2
    decreases 9 - k
  {
    if k == 9 then 2 else 128 * Room(k + 1)
  }

  lemma {:induction false} ReadVarintOfVarint(v: nat, rest: seq<byte>, k: nat)
    requires k <= 9 && v < Room(k)
    ensures ReadVarint(Varint(v) + rest, k) == Some((v, rest))
    decreases v
  {
    var b := Varint(v) + rest;
    if v < 128 {
      assert b[1..] == rest;
    } else {
      assert b[1..] == Varint(v / 128) + rest;
      ReadVarintOfVarint(v / 128, rest, k + 1);
    }
  }

  lemma RoomForU64()
    ensures Room(0) == TWO_64
  {
    assert Room(9) == 2 && Room(8) == 256 && Room(7) == 0x8000 && Room(6) == 0x40_0000 && Room(5) == 0x2000_0000;
    assert Room(4) == 0x10_0000_0000 && Room(3) == 0x800_0000_0000 && Room(2) == 0x4_0000_0000_0000;
    assert Room(1) == 0x200_0000_0000_0000;
  }

  lemma {:induction false} VarintSize(v: nat, k: nat)
    requires k <= 9 && v < Room(k)
    ensures |Varint(v)| <= 10 - k
    decreases v
  {
    if v >= 128 {
      VarintSize(v / 128, k + 1);
    }
  }

  lemma {:induction false} ReadVarintBound(rest: seq<byte>, k: nat)
    requires k <= 9
    ensures ReadVarint(rest, k).Some? ==> ReadVarint(rest, k).value.0 < Room(k)
    decreases |rest|
  {
    if rest != [] && rest[0] >= 128 {
      if k < 9 {
        ReadVarintBound(rest[1..], k + 1);
      } else {
        assert ReadVarint(rest[1..], 10) == None;
      }
    }
  }

  // ---- deltas ----

  function Deltas(vals: seq<i64>, prev: i64): seq<byte> {
    if vals == [] then [] else Varint(Zigzag(Wrap64(vals[0] - prev))) + Deltas(vals[1..], vals[0])
  }

  function ReadDeltas(raw: seq<byte>, rows: nat, prev: i64): Option<seq<i64>>
    decreases rows
  {
    if rows == 0 then Some([]) else
    var (u, rest) :- ReadVarint(raw, 0);
    ReadVarintBound(raw, 0);
    RoomForU64();
    var v := Wrap64(prev + Unzigzag(u));
    var tail :- ReadDeltas(rest, rows - 1, v);
    Some([v] + tail)
  }

  lemma UndoDelta(v: i64, prev: i64)
    ensures Wrap64(prev + Unzigzag(Zigzag(Wrap64(v - prev)))) == v
  {
  }

  lemma {:induction false} ReadDeltasOfDeltas(vals: seq<i64>, prev: i64, rest: seq<byte>)
    ensures ReadDeltas(Deltas(vals, prev) + rest, |vals|, prev) == Some(vals)
    decreases |vals|
  {
    hide Varint, ReadVarint, Zigzag, Unzigzag, Wrap64, Room;
    if vals != [] {
      var u := Zigzag(Wrap64(vals[0] - prev));
      var more := Deltas(vals[1..], vals[0]) + rest;
      assert Deltas(vals, prev) + rest == Varint(u) + more;
      RoomForU64();
      ReadVarintOfVarint(u, more, 0);
      UndoDelta(vals[0], prev);
      ReadDeltasOfDeltas(vals[1..], vals[0], rest);
      assert vals == [vals[0]] + vals[1..];
    }
  }

  lemma {:induction false} DeltasSize(vals: seq<i64>, prev: i64)
    ensures |Deltas(vals, prev)| <= 10 * |vals|
    decreases |vals|
  {
    if vals != [] {
      RoomForU64();
      VarintSize(Zigzag(Wrap64(vals[0] - prev)), 0);
      DeltasSize(vals[1..], vals[0]);
    }
  }

  // ---- pages ----

  /** `decode_i64_page`; `None` is the panic on a page that does not decode. */
  function DecodePage(comp: seq<byte>, rows: nat): Option<seq<i64>> {
    match Lz4.Decompressed(comp)
    case Err(_) => None
    case Ok(raw) => ReadDeltas(raw, rows, 0)
  }

  method PutVarint(out: seq<byte>, v: nat) returns (r: seq<byte>)
    ensures r == out + Varint(v)
  {
    r := out;
    var rem := v;
    while true
      invariant r + Varint(rem) == out + Varint(v)
      decreases rem
    {
      var b := rem % 128;
      if rem / 128 == 0 {
        r := r + [b];
        break;
      }
      assert r + Varint(rem) == (r + [b + 128]) + Varint(rem / 128);
      rem := rem / 128;
      r := r + [b + 128];
    }
  }

  /** What the bytes already read, worth `v`, make of the ones still to come. */
  ghost function Onto(v: nat, scale: nat, more: Option<(nat, seq<byte>)>): Option<(nat, seq<byte>)> {
    match more
    case None => None
    case Some((w, rest)) => Some((v + scale * w, rest))
  }

  lemma Regroup(v: nat, scale: nat, d: nat, w: nat)
    ensures v + scale * (d + 128 * w) == (v + scale * d) + (128 * scale) * w
  {
  }

  lemma OntoNext(v: nat, scale: nat, rest: seq<byte>, k: nat)
    requires rest != [] && k < 10
    ensures rest[0] >= 128 ==>
      Onto(v, scale, ReadVarint(rest, k)) == Onto(v + scale * Digit(rest[0], k), 128 * scale, ReadVarint(rest[1..], k + 1))
    ensures rest[0] < 128 ==> Onto(v, scale, ReadVarint(rest, k)) == Some((v + scale * Digit(rest[0], k), rest[1..]))
  {
    var more := ReadVarint(rest[1..], k + 1);
    if more.Some? {
      Regroup(v, scale, Digit(rest[0], k), more.value.0);
    }
  }

  method GetVarint(buf: seq<byte>, pos: nat) returns (r: Option<(nat, nat)>)
    requires pos <= |buf|
    ensures match ReadVarint(buf[pos..], 0)
            case None => r == None
            case Some((v, rest)) => r.Some? && r.value.0 == v && r.value.1 <= |buf| && buf[r.value.1..] == rest
  {
    hide Digit;
    var v: nat, p: nat, k: nat, scale: nat := 0, pos, 0, 1;
    while true
      invariant pos <= p <= |buf| && k <= 10
      invariant Onto(v, scale, ReadVarint(buf[p..], k)) == ReadVarint(buf[pos..], 0)
      decreases |buf| - p
    {
      if p == |buf| || k == 10 {
        return None;
      }
      var b := buf[p];
      OntoNext(v, scale, buf[p..], k);
      assert buf[p..][1..] == buf[p + 1..];
      v := v + scale * Digit(b, k);
      p := p + 1;
      if b < 128 {
        return Some((v, p));
      }
      k, scale := k + 1, 128 * scale;
    }
  }

  lemma DeltasStep(vals: seq<i64>, i: nat, prev: i64)
    requires i < |vals|
    ensures Deltas(vals[i..], prev) == Varint(Zigzag(Wrap64(vals[i] - prev))) + Deltas(vals[i + 1..], vals[i])
  {
    assert vals[i..][1..] == vals[i + 1..];
  }

  /** What `encode_i64_page` needs of the block codec. */
  lemma PageRoundTrip(vals: seq<i64>, comp: seq<byte>)
    requires |vals| <= PAGE_ROWS
    requires Lz4.Decompressed(comp) == if |Deltas(vals, 0)| < TWO_32 then Ok(Deltas(vals, 0)) else Err(Lz4.LengthMismatch)
    requires |comp| <= |Deltas(vals, 0)| + |Deltas(vals, 0)| / 255 + 6
    ensures DecodePage(comp, |vals|) == Some(vals) && |comp| < TWO_32
  {
    hide ReadDeltas, Deltas, Lz4.Decompressed;
    DeltasSize(vals, 0);
    ReadDeltasOfDeltas(vals, 0, []);
    assert Deltas(vals, 0) + [] == Deltas(vals, 0);
  }

  /** `encode_i64_page`: a page of up to 8192 rows decodes back, and its size fits 32 bits. */
  method EncodePage(vals: seq<i64>) returns (comp: seq<byte>)
    ensures |vals| <= PAGE_ROWS ==> DecodePage(comp, |vals|) == Some(vals) && |comp| < TWO_32
  {
    hide Deltas, Varint, Zigzag, Wrap64, DecodePage, Lz4.Decompressed, Lz4.Compresses, Lz4.EndRules;
    var raw: seq<byte> := [];
    var prev: i64 := 0;
    for i := 0 to |vals|
      invariant raw + Deltas(vals[i..], prev) == Deltas(vals, 0)
    {
      DeltasStep(vals, i, prev);
      assert raw + Deltas(vals[i..], prev)
          == (raw + Varint(Zigzag(Wrap64(vals[i] - prev)))) + Deltas(vals[i + 1..], vals[i]);
      raw := PutVarint(raw, Zigzag(Wrap64(vals[i] - prev)));
      prev := vals[i];
    }
    NoMoreDeltas(vals, prev);
    assert raw == Deltas(vals, 0);
    ghost var ss, tail;
    comp, ss, tail := Lz4.Compress(raw);
    if |vals| <= PAGE_ROWS {
      PageRoundTrip(vals, comp);
    }
  }

  lemma NoMoreDeltas(vals: seq<i64>, prev: i64)
    ensures Deltas(vals[|vals|..], prev) == []
  {
  }

  ghost function After(vals: seq<i64>, more: Option<seq<i64>>): Option<seq<i64>> {
    match more
    case None => None
    case Some(tail) => Some(vals + tail)
  }

  lemma AfterNext(raw: seq<byte>, rows: nat, prev: i64, vals: seq<i64>)
    requires rows > 0
    ensures match ReadVarint(raw, 0)
            case None => After(vals, ReadDeltas(raw, rows, prev)) == None
            case Some((u, rest)) =>
              && u < TWO_64
              && var v := Wrap64(prev + Unzigzag(u));
                 After(vals, ReadDeltas(raw, rows, prev)) == After(vals + [v], ReadDeltas(rest, rows - 1, v))
  {
    var got := ReadVarint(raw, 0);
    if got.Some? {
      ReadVarintBound(raw, 0);
      RoomForU64();
      var v := Wrap64(prev + Unzigzag(got.value.0));
      var more := ReadDeltas(got.value.1, rows - 1, v);
      assert more.Some? ==> vals + ([v] + more.value) == (vals + [v]) + more.value;
    }
  }

  lemma AfterNothing(more: Option<seq<i64>>)
    ensures After([], more) == more
  {
    assert more.Some? ==> [] + more.value == more.value;
  }

  lemma NoDeltas(raw: seq<byte>, prev: i64, vals: seq<i64>)
    ensures After(vals, ReadDeltas(raw, 0, prev)) == Some(vals)
  {
    assert vals + [] == vals;
  }

  method ReadValues(raw: seq<byte>, rows: nat) returns (out: Option<seq<i64>>)
    ensures out == ReadDeltas(raw, rows, 0)
  {
    hide ReadDeltas, Wrap64, Unzigzag, ReadVarint, After;
    var vals: seq<i64> := [];
    var pos: nat, prev: i64 := 0, 0;
    AfterNothing(ReadDeltas(raw, rows, 0));
    assert raw[0..] == raw;
    for i := 0 to rows
      invariant pos <= |raw|
      invariant After(vals, ReadDeltas(raw[pos..], rows - i, prev)) == ReadDeltas(raw, rows, 0)
    {
      AfterNext(raw[pos..], rows - i, prev, vals);
      var got := GetVarint(raw, pos);
      if got == None {
        return None;
      }
      prev := Wrap64(prev + Unzigzag(got.value.0));
      pos := got.value.1;
      vals := vals + [prev];
    }
    NoDeltas(raw[pos..], prev, vals);
    out := Some(vals);
  }

  /** `decode_i64_page`. */
  method ReadPage(comp: seq<byte>, rows: nat) returns (out: Option<seq<i64>>)
    ensures out == DecodePage(comp, rows)
  {
    var d := Lz4.Decompress(comp);
    if d.Err? {
      return None;
    }
    out := ReadValues(d.value, rows);
  }
}
