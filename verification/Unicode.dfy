/** Unicode scalar values and their UTF-8 bytes, and the bytes that are the text of a string of such values. */
module Unicode {
  import opened Wrappers
  import opened Bytes

  predicate IsScalar(c: int) {
    0 <= c < 0xD800 || 0xE000 <= c < 0x11_0000
  }

  /** A `char`: a Unicode scalar value. */
  type Scalar = c: int | 0 <= c < 0xD800 || 0xE000 <= c < 0x11_0000 witness 0

  function Cont(x: nat): byte {
    0x80 + x % 64
  }

  function Utf8(c: Scalar): (b: seq<byte>)
    ensures 1 <= |b| <= 4 && |b| == Width(b[0])
  {
    if c < 0x80 then [c]
    else if c < 0x800 then [0xC0 + c / 64, Cont(c)]
    else if c < 0x1_0000 then [0xE0 + c / 4096, Cont(c / 64), Cont(c)]
    else [0xF0 + c / 262144, Cont(c / 4096), Cont(c / 64), Cont(c)]
  }

  /** How many bytes the parser takes for a character that starts with `c`. */
  function Width(c: byte): nat {
    if c < 0x80 then 1 else if 0xC0 <= c < 0xE0 then 2 else if 0xE0 <= c < 0xF0 then 3 else 4
  }

  function Low(b: byte): int {
    b as int - 0x80
  }

  function Candidate(b: seq<byte>): int
    requires 1 <= |b| <= 4
  {
    if |b| == 1 then b[0]
    else if |b| == 2 then (b[0] as int - 0xC0) * 64 + Low(b[1])
    else if |b| == 3 then (b[0] as int - 0xE0) * 4096 + Low(b[1]) * 64 + Low(b[2])
    else (b[0] as int - 0xF0) * 262144 + Low(b[1]) * 4096 + Low(b[2]) * 64 + Low(b[3])
  }

  /** `from_utf8` on the bytes of one character: overlong forms, surrogates and stray bytes are refused. */
  function FromUtf8(b: seq<byte>): Option<Scalar>
    requires 1 <= |b| <= 4
  {
    var c := Candidate(b);
    if IsScalar(c) && Utf8(c) == b then Some(c) else None
  }

  lemma FromUtf8OfUtf8(c: Scalar)
    ensures FromUtf8(Utf8(c)) == Some(c)
  {
    assert Candidate(Utf8(c)) == c by {
      Sextets(c);
    }
    hide Utf8, Candidate;
  }

  /** A number put together from its base-64 digits. */
  lemma Sextets(c: nat)
    ensures c == c / 64 * 64 + c % 64
    ensures c == c / 4096 * 4096 + c / 64 % 64 * 64 + c % 64
    ensures c == c / 262144 * 262144 + c / 4096 % 64 * 4096 + c / 64 % 64 * 64 + c % 64
  {
    assert c / 64 / 64 == c / 4096 && c / 4096 / 64 == c / 262144;
    assert c / 64 == c / 4096 * 64 + c / 64 % 64;
    assert c / 4096 == c / 262144 * 64 + c / 4096 % 64;
  }

  /** What `String::from_utf8` accepts. */
  predicate IsUtf8(b: seq<byte>) {
    b == [] || (var n := Width(b[0]); n <= |b| && FromUtf8(b[..n]).Some? && IsUtf8(b[n..]))
  }

  function Encode(s: seq<Scalar>): seq<byte> {
    if s == [] then [] else Utf8(s[0]) + Encode(s[1..])
  }

  /** Exactly the encodings of strings are accepted. */
  lemma {:induction false} IsUtf8Iff(b: seq<byte>)
    ensures IsUtf8(b) <==> exists s :: Encode(s) == b
  {
    if IsUtf8(b) {
      var s := Decoded(b);
      assert Encode(s) == b;
    }
    if s :| Encode(s) == b {
      EncodedIsUtf8(s);
    }
  }

  lemma {:induction false} Decoded(b: seq<byte>) returns (s: seq<Scalar>)
    requires IsUtf8(b)
    ensures Encode(s) == b
    decreases |b|
  {
    if b == [] {
      s := [];
    } else {
      var n := Width(b[0]);
      var rest := Decoded(b[n..]);
      s := [FromUtf8(b[..n]).value] + rest;
      assert s[1..] == rest && b == b[..n] + b[n..];
    }
  }

  lemma {:induction false} EncodedIsUtf8(s: seq<Scalar>)
    ensures IsUtf8(Encode(s))
    decreases |s|
  {
    if s != [] {
      EncodedIsUtf8(s[1..]);
      FromUtf8OfUtf8(s[0]);
      var b, n := Encode(s), |Utf8(s[0])|;
      assert b[..n] == Utf8(s[0]) && b[n..] == Encode(s[1..]);
      assert b[0] == Utf8(s[0])[0];
    }
  }

  lemma {:induction false} AsciiIsUtf8(b: seq<byte>)
    requires forall i :: 0 <= i < |b| ==> b[i] < 0x80
    ensures IsUtf8(b)
    decreases |b|
  {
    if b != [] {
      assert b[..1] == [b[0]];
      AsciiIsUtf8(b[1..]);
    }
  }
}
