/** The lower and upper bounds that a manifest keeps for the columns of a file, by field id. */
module Bounds {
  import opened Wrappers
  import opened Bytes

  /** A column's bounds in one file, as Iceberg single-value binary, under the column's field id. */
  datatype Bound = Bound(id: i32, lo: seq<byte>, hi: seq<byte>)

  /** The first bound with an id. */
  function FindBound(bounds: seq<Bound>, id: int): (r: Option<Bound>)
    ensures r.Some? ==> r.value in bounds && r.value.id == id
  {
    if bounds == [] then None else if bounds[0].id == id then Some(bounds[0]) else FindBound(bounds[1..], id)
  }

  function SerLong(v: i64): seq<byte> {
    I64Bytes(v)
  }

  /** `de_long` of the first eight bytes; shorter bounds are a panic. */
  function DeLong(b: seq<byte>): Option<i64> {
    if |b| < 8 then None else
    FromLEBound(b[..8]);
    Widths();
    Some(I64OfU64(FromLE(b[..8])))
  }

  lemma DeLongOfSerLong(v: i64)
    ensures DeLong(SerLong(v)) == Some(v)
  {
    hide FromLE, LE;
    assert SerLong(v)[..8] == SerLong(v);
    Widths();
    FromLEOfLE(U64OfI64(v), 8);
  }
}
