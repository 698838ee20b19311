/** Bytes and little-endian integers, and machine integers of 32 and 64 bits with wrap-around. */
module Bytes {
  type byte = x: int | 0 <= x < 256

  const TWO_16: nat := 0x1_0000
  const TWO_32: nat := 0x1_0000_0000
  const TWO_63: nat := 0x8000_0000_0000_0000
  const TWO_64: nat := 0x1_0000_0000_0000_0000

  type i32 = x: int | -0x8000_0000 <= x < 0x8000_0000

  type i64 = x: int | -0x8000_0000_0000_0000 <= x < 0x8000_0000_0000_0000

  function Pow256(n: nat): (p: nat)
    ensures p >= 1
  {
    if n == 0 then 1 else 256 * Pow256(n - 1)
  }

  /** The `n` low bytes of `v`, least significant first. */
  function LE(v: nat, n: nat): (b: seq<byte>)
    ensures |b| == n
  {
    if n == 0 then [] else [v % 256] + LE(v / 256, n - 1)
  }

  function FromLE(b: seq<byte>): nat {
    if b == [] then 0 else b[0] + 256 * FromLE(b[1..])
  }

  lemma {:induction false} FromLEOfLE(v: nat, n: nat)
    requires v < Pow256(n)
    ensures FromLE(LE(v, n)) == v
  {
    if n > 0 {
      FromLEOfLE(v / 256, n - 1);
      assert LE(v, n)[1..] == LE(v / 256, n - 1);
    }
  }

  /** Equal values of equal width have equal bytes. */
  lemma {:induction false} FromLEInjective(a: seq<byte>, b: seq<byte>)
    requires |a| == |b| && FromLE(a) == FromLE(b)
    ensures a == b
  {
    if a != [] {
      FromLEInjective(a[1..], b[1..]);
      assert a == [a[0]] + a[1..] && b == [b[0]] + b[1..];
    }
  }

  lemma Widths()
    ensures Pow256(2) == TWO_16 && Pow256(4) == TWO_32 && Pow256(8) == TWO_64
  {
    assert Pow256(1) == 256 && Pow256(2) == TWO_16 && Pow256(3) == 0x100_0000 && Pow256(4) == TWO_32;
    assert Pow256(5) == 0x100_0000_0000 && Pow256(6) == 0x1_0000_0000_0000 && Pow256(7) == 0x100_0000_0000_0000;
  }

  /** `as u32` and `to_le_bytes`. */
  function U32(v: nat): (b: seq<byte>)
    ensures |b| == 4
  {
    LE(v % TWO_32, 4)
  }

  lemma U32RoundTrip(v: nat)
    ensures FromLE(U32(v)) == v % TWO_32
  {
    Widths();
    FromLEOfLE(v % TWO_32, 4);
  }

  /** Two's complement wrap-around, as `wrapping_add` and `wrapping_sub` do it. */
  function Wrap64(x: int): i64 {
    (x + TWO_63) % TWO_64 - TWO_63
  }

  lemma WrapShift(x: int, k: int)
    ensures Wrap64(x + k * TWO_64) == Wrap64(x)
  {
    var m, r := (x + TWO_63) / TWO_64, (x + TWO_63) % TWO_64;
    assert x + k * TWO_64 + TWO_63 == (m + k) * TWO_64 + r;
    assert ((m + k) * TWO_64 + r) % TWO_64 == r;
  }

  /** Wrapping early or late makes no difference. */
  lemma WrapAbsorbs(x: int, y: int)
    ensures Wrap64(Wrap64(x) + y) == Wrap64(x + y) && Wrap64(x + Wrap64(y)) == Wrap64(x + y)
  {
    var k, l := (x + TWO_63) / TWO_64, (y + TWO_63) / TWO_64;
    assert Wrap64(x) + y == x + y + (-k) * TWO_64;
    assert x + Wrap64(y) == x + y + (-l) * TWO_64;
    hide Wrap64;
    WrapShift(x + y, -k);
    WrapShift(x + y, -l);
  }

  function U64OfI64(v: i64): nat {
    if v < 0 then v + TWO_64 else v
  }

  function I64OfU64(v: nat): i64
    requires v < TWO_64
  {
    if v < TWO_63 then v else v - TWO_64
  }

  function I64Bytes(v: i64): (b: seq<byte>)
    ensures |b| == 8
  {
    LE(U64OfI64(v), 8)
  }

  lemma FromLEBound(b: seq<byte>)
    ensures FromLE(b) < Pow256(|b|)
  {
    if b != [] {
      FromLEBound(b[1..]);
    }
  }
}
