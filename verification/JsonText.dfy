/** Text inside JSON: string escapes, and numbers, of which integers below a limit have their value. */
module JsonText {
  import opened Wrappers
  import opened Bytes
  import opened Unicode

  datatype Error = Eof | Trailing | BadKey | Expected | Unterminated | BadEscape | BadUnicode | BadUtf8 | BadLiteral | BadNumber | Panic

  // ---- string escapes ----

  const QUOTE: byte := 0x22
  const BACKSLASH: byte := 0x5C

  function HexDigit(d: nat): byte
    requires d < 16
  {
    if d < 10 then 0x30 + d else 0x61 + (d - 10)
  }

  function HexValue(b: byte): Option<nat> {
    if 0x30 <= b < 0x3A then Some(b - 0x30)
    else if 0x41 <= b < 0x47 then Some(b - 0x41 + 10)
    else if 0x61 <= b < 0x67 then Some(b - 0x61 + 10)
    else None
  }

  /** A character as the printer writes it inside a string. */
  function Escape(c: Scalar): (b: seq<byte>)
    ensures b != [] && b[0] != QUOTE
  {
    if c == 0x22 then [BACKSLASH, QUOTE]
    else if c == 0x5C then [BACKSLASH, BACKSLASH]
    else if c == 0x0A then [BACKSLASH, 0x6E]
    else if c == 0x09 then [BACKSLASH, 0x74]
    else if c == 0x0D then [BACKSLASH, 0x72]
    else if c < 0x20 then [BACKSLASH, 0x75, 0x30, 0x30, HexDigit(c / 16), HexDigit(c % 16)]
    else Utf8Plain(c); Utf8(c)
  }

  lemma Utf8Plain(c: Scalar)
    requires c != 0x22
    ensures Utf8(c)[0] != QUOTE
    ensures c != 0x5C ==> Utf8(c)[0] != BACKSLASH
  {
  }

  function HexRun(b: seq<byte>, p: nat, n: nat, acc: nat): Option<nat>
    requires p + n <= |b|
    decreases n
  {
    if n == 0 then Some(acc) else
    var d :- HexValue(b[p]);
    HexRun(b, p + 1, n - 1, 16 * acc + d)
  }

  /** `from_str_radix` on four bytes, which also takes a plus sign and three digits. */
  function Hex4(b: seq<byte>, p: nat): Option<nat>
    requires p + 4 <= |b|
  {
    if b[p] == 0x2B then HexRun(b, p + 1, 3, 0) else HexRun(b, p, 4, 0)
  }

  /** An escape, from the byte after the backslash. */
  function ParseEscape(b: seq<byte>, p: nat): Result<(Scalar, nat), Error>
    requires p <= |b|
  {
    if p == |b| then Err(BadEscape) else
    var c := b[p];
    if c == 0x22 || c == 0x5C || c == 0x2F then Ok((c, p + 1))
    else if c == 0x6E then Ok((0x0A, p + 1))
    else if c == 0x74 then Ok((0x09, p + 1))
    else if c == 0x72 then Ok((0x0D, p + 1))
    else if c == 0x62 then Ok((0x08, p + 1))
    else if c == 0x66 then Ok((0x0C, p + 1))
    else if c == 0x75 then
      if p + 5 > |b| then Err(Panic) else
      match Hex4(b, p + 1)
      case None => Err(BadUnicode)
      case Some(v) => Ok((if IsScalar(v) then v else 0xFFFD, p + 5))
    else Err(BadEscape)
  }

  /** One character of a string: an escape, or UTF-8 passed through. */
  function ParseChar(b: seq<byte>, p: nat): (r: Result<(Scalar, nat), Error>)
    requires p < |b|
    ensures r.Ok? ==> p < r.value.1 <= |b|
  {
    if b[p] == BACKSLASH then ParseEscape(b, p + 1) else
    var n := Width(b[p]);
    if p + n > |b| then Err(Panic) else
    match FromUtf8(b[p..p + n])
    case None => Err(BadUtf8)
    case Some(c) => Ok((c, p + n))
  }

  ghost predicate At(b: seq<byte>, p: nat, x: seq<byte>) {
    p + |x| <= |b| && b[p..p + |x|] == x
  }

  lemma AtParts(b: seq<byte>, p: nat, x: seq<byte>, y: seq<byte>)
    requires At(b, p, x + y)
    ensures At(b, p, x) && At(b, p + |x|, y)
  {
    var s := b[p..p + |x + y|];
    assert s[..|x|] == x && s[|x|..] == y;
    assert b[p..p + |x|] == s[..|x|] && b[p + |x|..p + |x| + |y|] == s[|x|..];
  }

  lemma AtByte(b: seq<byte>, p: nat, x: seq<byte>, i: nat)
    requires At(b, p, x) && i < |x|
    ensures b[p + i] == x[i]
  {
    assert b[p..p + |x|][i] == b[p + i];
  }

  lemma HexOf(d: nat)
    requires d < 16
    ensures HexValue(HexDigit(d)) == Some(d)
  {
  }

  /** A control character's escape is read back. */
  lemma ParseControl(c: Scalar, b: seq<byte>, p: nat)
    requires c < 0x20 && At(b, p, [BACKSLASH, 0x75, 0x30, 0x30, HexDigit(c / 16), HexDigit(c % 16)])
    ensures ParseChar(b, p) == Ok((c, p + 6))
  {
    var x := [BACKSLASH, 0x75, 0x30, 0x30, HexDigit(c / 16), HexDigit(c % 16)];
    AtByte(b, p, x, 0);
    AtByte(b, p, x, 1);
    AtByte(b, p, x, 2);
    AtByte(b, p, x, 3);
    AtByte(b, p, x, 4);
    AtByte(b, p, x, 5);
    HexOf(c / 16);
    HexOf(c % 16);
    assert HexValue(0x30) == Some(0);
    hide HexDigit, HexValue;
    var h, l := c / 16, c % 16;
    assert HexRun(b, p + 6, 0, 16 * h + l) == Some(16 * h + l);
    assert HexRun(b, p + 5, 1, h) == Some(16 * h + l);
    assert HexRun(b, p + 4, 2, 0) == Some(16 * h + l);
    assert HexRun(b, p + 3, 3, 0) == Some(16 * h + l);
    assert HexRun(b, p + 2, 4, 0) == Some(16 * h + l);
  }

  lemma ParseCharOf(c: Scalar, b: seq<byte>, p: nat)
    requires At(b, p, Escape(c))
    ensures p < |b| && b[p] != QUOTE && ParseChar(b, p) == Ok((c, p + |Escape(c)|))
  {
    hide Utf8, Candidate, FromUtf8, Width;
    AtByte(b, p, Escape(c), 0);
    if c == 0x22 || c == 0x5C || c == 0x0A || c == 0x09 || c == 0x0D {
      AtByte(b, p, Escape(c), 1);
    } else if c < 0x20 {
      ParseControl(c, b, p);
    } else {
      Utf8Plain(c);
      FromUtf8OfUtf8(c);
    }
  }

  // ---- integers ----

  /** Numbers the printer writes as integers, and an `f64` holds exactly. */
  const LIMIT: int := 9_000_000_000_000_000

  function Digits(n: nat): (d: seq<byte>)
    ensures d != [] && forall i :: 0 <= i < |d| ==> 0x30 <= d[i] < 0x3A
  {
    if n < 10 then [0x30 + n] else Digits(n / 10) + [0x30 + n % 10]
  }

  function Integer(n: int): (d: seq<byte>)
    ensures d != [] && forall i :: 0 <= i < |d| ==> NumberByte(d[i])
  {
    if n < 0 then [0x2D] + Digits(-n) else Digits(n)
  }

  /** The bytes a number runs over. */
  predicate NumberByte(c: byte) {
    0x30 <= c < 0x3A || c == 0x2D || c == 0x2B || c == 0x2E || c == 0x65 || c == 0x45
  }

  function NatOf(d: seq<byte>): Option<nat> {
    if d == [] then Some(0) else
    var last := d[|d| - 1];
    var n :- NatOf(d[..|d| - 1]);
    if 0x30 <= last < 0x3A then Some(10 * n + (last - 0x30)) else None
  }

  /** The value of an integer literal below the limit. */
  function IntegerOf(text: seq<byte>): Option<int> {
    if text != [] && text[0] == 0x2D then
      if |text| == 1 then None else
      var n :- NatOf(text[1..]);
      if n < LIMIT then Some(-(n as int)) else None
    else if text == [] then None else
      var n :- NatOf(text);
      if n < LIMIT then Some(n) else None
  }

  function DigitsEnd(text: seq<byte>, i: nat): (j: nat)
    requires i <= |text|
    ensures i <= j <= |text|
    decreases |text| - i
  {
    if i < |text| && 0x30 <= text[i] < 0x3A then DigitsEnd(text, i + 1) else i
  }

  function SignEnd(text: seq<byte>, i: nat): (j: nat)
    requires i <= |text|
    ensures i <= j <= |text|
  {
    if i < |text| && (text[i] == 0x2D || text[i] == 0x2B) then i + 1 else i
  }

  /** What `f64` parses of such bytes: a sign, digits with or without a point but at least one, and an exponent. */
  predicate IsFloat(text: seq<byte>) {
    var i := SignEnd(text, 0);
    var j := DigitsEnd(text, i);
    var point := j < |text| && text[j] == 0x2E;
    var k := if point then DigitsEnd(text, j + 1) else j;
    && (j > i || (point && k > j + 1))
    && (k == |text| ||
        ((text[k] == 0x65 || text[k] == 0x45) &&
         var m := SignEnd(text, k + 1); m < |text| && DigitsEnd(text, m) == |text|))
  }

  lemma {:induction false} NatOfDigits(n: nat)
    ensures NatOf(Digits(n)) == Some(n)
  {
    if n < 10 {
      assert Digits(n)[..0] == [];
    } else {
      NatOfDigits(n / 10);
      assert Digits(n)[..|Digits(n)| - 1] == Digits(n / 10);
    }
  }

  lemma IntegerOfInteger(n: int)
    requires -LIMIT < n < LIMIT
    ensures IntegerOf(Integer(n)) == Some(n)
  {
    if n < 0 {
      NatOfDigits(-n);
      assert Integer(n)[1..] == Digits(-n);
    } else {
      NatOfDigits(n);
    }
  }

  /** The end of the run of number bytes. */
  function NumberEnd(b: seq<byte>, p: nat): (q: nat)
    requires p <= |b|
    ensures p <= q <= |b|
    decreases |b| - p
  {
    if p < |b| && NumberByte(b[p]) then NumberEnd(b, p + 1) else p
  }

  lemma {:induction false} NumberEndAt(b: seq<byte>, p: nat, d: seq<byte>)
    requires At(b, p, d) && forall i :: 0 <= i < |d| ==> NumberByte(d[i])
    requires p + |d| == |b| || !NumberByte(b[p + |d|])
    ensures NumberEnd(b, p) == p + |d|
    decreases |d|
  {
    if d != [] {
      AtByte(b, p, d, 0);
      AtParts(b, p, [d[0]], d[1..]);
      assert d == [d[0]] + d[1..];
      NumberEndAt(b, p + 1, d[1..]);
    }
  }
}
