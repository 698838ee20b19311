/** Length-prefixed fields written one after another, and read back at a cursor into a buffer. */
module Cursor {
  import opened Wrappers
  import opened Bytes

  type u32 = x: int | 0 <= x < 0x1_0000_0000
  type u64 = x: int | 0 <= x < 0x1_0000_0000_0000_0000

  /** A string is its UTF-8 bytes. */
  type Text = seq<byte>

  /** Reads a value at a position; `None` is the panic on a slice outside the buffer. */
  type Parser<T> = (seq<byte>, nat) -> Option<(T, nat)>

  function R32(buf: seq<byte>, pos: nat): Option<(u32, nat)> {
    if pos + 4 > |buf| then None else
    FromLEBound(buf[pos..pos + 4]);
    Widths();
    Some((FromLE(buf[pos..pos + 4]), pos + 4))
  }

  function R64(buf: seq<byte>, pos: nat): Option<(u64, nat)> {
    if pos + 8 > |buf| then None else
    FromLEBound(buf[pos..pos + 8]);
    Widths();
    Some((FromLE(buf[pos..pos + 8]), pos + 8))
  }

  function RI64(buf: seq<byte>, pos: nat): Option<(i64, nat)> {
    var (v, next) :- R64(buf, pos);
    Some((I64OfU64(v), next))
  }

  function RS(buf: seq<byte>, pos: nat): Option<(Text, nat)> {
    var (n, next) :- R32(buf, pos);
    if next + n > |buf| then None else Some((buf[next..next + n], next + n))
  }

  function W64(v: u64): seq<byte> {
    LE(v, 8)
  }

  function WS(s: Text): seq<byte> {
    U32(|s|) + s
  }

  ghost predicate At(buf: seq<byte>, pos: nat, b: seq<byte>) {
    pos + |b| <= |buf| && buf[pos..pos + |b|] == b
  }

  lemma AtConcat(buf: seq<byte>, pos: nat, a: seq<byte>, b: seq<byte>)
    requires At(buf, pos, a + b)
    ensures At(buf, pos, a) && At(buf, pos + |a|, b)
  {
    var s := buf[pos..pos + |a + b|];
    assert s[..|a|] == a && s[|a|..] == b;
    assert buf[pos..pos + |a|] == s[..|a|] && buf[pos + |a|..pos + |a| + |b|] == s[|a|..];
  }

  lemma R32At(buf: seq<byte>, pos: nat, v: nat)
    requires v < TWO_32 && At(buf, pos, U32(v))
    ensures R32(buf, pos) == Some((v, pos + 4))
  {
    hide LE, FromLE;
    U32RoundTrip(v);
  }

  lemma R64At(buf: seq<byte>, pos: nat, v: u64)
    requires At(buf, pos, W64(v))
    ensures R64(buf, pos) == Some((v, pos + 8))
  {
    hide LE, FromLE;
    Widths();
    FromLEOfLE(v, 8);
  }

  lemma RI64At(buf: seq<byte>, pos: nat, v: i64)
    requires At(buf, pos, I64Bytes(v))
    ensures RI64(buf, pos) == Some((v, pos + 8))
  {
    hide LE, FromLE, R64;
    R64At(buf, pos, U64OfI64(v));
  }

  lemma RSAt(buf: seq<byte>, pos: nat, s: Text)
    requires |s| < TWO_32 && At(buf, pos, WS(s))
    ensures RS(buf, pos) == Some((s, pos + |WS(s)|))
  {
    hide U32, R32;
    AtConcat(buf, pos, U32(|s|), s);
    R32At(buf, pos, |s|);
  }

  // ---- many values in a row ----

  function All<T>(e: T -> seq<byte>, xs: seq<T>): seq<byte> {
    if xs == [] then [] else e(xs[0]) + All(e, xs[1..])
  }

  function Times<T>(p: Parser<T>, n: nat, buf: seq<byte>, pos: nat): Option<(seq<T>, nat)>
    decreases n
  {
    if n == 0 then Some(([], pos)) else
    var (x, next) :- p(buf, pos);
    var (xs, end) :- Times(p, n - 1, buf, next);
    Some(([x] + xs, end))
  }

  /** Wherever the bytes of an acceptable value stand, the parser reads that value and stops after it. */
  ghost predicate Inverts<T(!new)>(p: Parser<T>, e: T -> seq<byte>, ok: T -> bool) {
    forall x, buf, pos: nat :: ok(x) && At(buf, pos, e(x)) ==> p(buf, pos) == Some((x, pos + |e(x)|))
  }

  lemma {:induction false} TimesOfAll<T(!new)>(p: Parser<T>, e: T -> seq<byte>, ok: T -> bool, xs: seq<T>, buf: seq<byte>, pos: nat)
    requires Inverts(p, e, ok) && (forall x :: x in xs ==> ok(x)) && At(buf, pos, All(e, xs))
    ensures Times(p, |xs|, buf, pos) == Some((xs, pos + |All(e, xs)|))
    decreases |xs|
  {
    hide At;
    if xs != [] {
      AtConcat(buf, pos, e(xs[0]), All(e, xs[1..]));
      TimesOfAll(p, e, ok, xs[1..], buf, pos + |e(xs[0])|);
      assert xs == [xs[0]] + xs[1..];
    }
  }

  lemma {:induction false} AllSize<T>(e: T -> seq<byte>, xs: seq<T>)
    requires forall x :: x in xs ==> |e(x)| >= 1
    ensures |All(e, xs)| >= |xs|
    ensures forall x :: x in xs ==> |e(x)| <= |All(e, xs)|
    decreases |xs|
  {
    if xs != [] {
      AllSize(e, xs[1..]);
    }
  }

  lemma {:induction false} AllSnoc<T>(e: T -> seq<byte>, xs: seq<T>, x: T)
    ensures All(e, xs + [x]) == All(e, xs) + e(x)
    decreases |xs|
  {
    if xs == [] {
      assert All(e, [x]) == e(x) + All(e, []);
    } else {
      assert (xs + [x])[1..] == xs[1..] + [x];
      AllSnoc(e, xs[1..], x);
    }
  }

  method PutAll<T>(out: seq<byte>, e: T -> seq<byte>, xs: seq<T>) returns (r: seq<byte>)
    ensures r == out + All(e, xs)
  {
    r := out;
    for i := 0 to |xs|
      invariant r == out + All(e, xs[..i])
    {
      AllSnoc(e, xs[..i], xs[i]);
      assert xs[..i + 1] == xs[..i] + [xs[i]];
      r := r + e(xs[i]);
    }
    assert xs[..|xs|] == xs;
  }

  ghost function Prefixed<T>(xs: seq<T>, more: Option<(seq<T>, nat)>): Option<(seq<T>, nat)> {
    match more
    case None => None
    case Some((ys, end)) => Some((xs + ys, end))
  }

  lemma PrefixedNext<T>(p: Parser<T>, n: nat, buf: seq<byte>, pos: nat, xs: seq<T>)
    requires n > 0
    ensures match p(buf, pos)
            case None => Prefixed(xs, Times(p, n, buf, pos)) == None
            case Some((x, next)) => Prefixed(xs, Times(p, n, buf, pos)) == Prefixed(xs + [x], Times(p, n - 1, buf, next))
  {
    var got := p(buf, pos);
    if got.Some? {
      var more := Times(p, n - 1, buf, got.value.1);
      assert more.Some? ==> xs + ([got.value.0] + more.value.0) == (xs + [got.value.0]) + more.value.0;
    }
  }

  lemma PrefixedEnds<T>(p: Parser<T>, buf: seq<byte>, pos: nat, xs: seq<T>, more: Option<(seq<T>, nat)>)
    ensures Prefixed(xs, Times(p, 0, buf, pos)) == Some((xs, pos))
    ensures Prefixed([], more) == more
  {
    assert xs + [] == xs;
    assert more.Some? ==> [] + more.value.0 == more.value.0;
  }

  /** The loop `for _ in 0..n` that reads one value after another. */
  method GetAll<T>(p: Parser<T>, n: nat, buf: seq<byte>, start: nat) returns (r: Option<(seq<T>, nat)>)
    ensures r == Times(p, n, buf, start)
  {
    hide Times, Prefixed;
    var xs, pos := [], start;
    PrefixedEnds(p, buf, start, xs, Times(p, n, buf, start));
    for i := 0 to n
      invariant Prefixed(xs, Times(p, n - i, buf, pos)) == Times(p, n, buf, start)
    {
      PrefixedNext(p, n - i, buf, pos, xs);
      var got := p(buf, pos);
      if got.None? {
        return None;
      }
      xs, pos := xs + [got.value.0], got.value.1;
    }
    PrefixedEnds(p, buf, pos, xs, None);
    r := Some((xs, pos));
  }
}
