/** The LZ4 block codec. */
module Lz4 {
  /* Blocks as lists of sequences, what they decode to, and the two loops. */

  import opened Wrappers
  import opened Bytes

  const MIN_MATCH: nat := 4

  /** Literals, then a copy of `matchLen` bytes from `offset` back. */
  datatype Sequence = Sequence(lits: seq<byte>, offset: nat, matchLen: nat)

  datatype Error = Short | BadOffset | LengthMismatch | OutOfBounds

  function Min(a: nat, b: nat): nat {
    if a <= b then a else b
  }

  // ---- what a block means ----

  /** A match copies byte by byte, so it may overlap what it produces. */
  function Copy(out: seq<byte>, offset: nat, n: nat): (r: seq<byte>)
    requires 1 <= offset <= |out|
    ensures |r| == |out| + n && r[..|out|] == out
    decreases n
  {
    if n == 0 then out else Copy(out + [out[|out| - offset]], offset, n - 1)
  }

  ghost predicate ValidSequence(before: nat, s: Sequence) {
    1 <= s.offset <= before + |s.lits| && s.offset < TWO_16 && s.matchLen >= MIN_MATCH
  }

  ghost predicate Valid(ss: seq<Sequence>)
    decreases |ss|, 0
  {
    ss != [] ==> Valid(ss[..|ss| - 1]) && ValidSequence(|Denote(ss[..|ss| - 1])|, ss[|ss| - 1])
  }

  ghost function Denote(ss: seq<Sequence>): seq<byte>
    requires Valid(ss)
    decreases |ss|, 1
  {
    if ss == [] then [] else
      var s := ss[|ss| - 1];
      Copy(Denote(ss[..|ss| - 1]) + s.lits, s.offset, s.matchLen)
  }

  // ---- its bytes ----

  function LenBytes(l: nat): seq<byte> {
    if l >= 255 then [255] + LenBytes(l - 255) else [l]
  }

  function Ext(l: nat): seq<byte> {
    if l >= 15 then LenBytes(l - 15) else []
  }

  function Token(lit: nat, m: nat): byte {
    16 * Min(lit, 15) + Min(m, 15)
  }

  function Literals(m: nat, lits: seq<byte>): seq<byte> {
    [Token(|lits|, m)] + Ext(|lits|) + lits
  }

  function EncodeSequence(s: Sequence): seq<byte>
    requires s.matchLen >= MIN_MATCH
  {
    Literals(s.matchLen - MIN_MATCH, s.lits) + LE(s.offset, 2) + Ext(s.matchLen - MIN_MATCH)
  }

  ghost function Encode(ss: seq<Sequence>): seq<byte>
    requires Valid(ss)
    decreases |ss|
  {
    if ss == [] then [] else Encode(ss[..|ss| - 1]) + EncodeSequence(ss[|ss| - 1])
  }

  // ---- decoding, as a function of the bytes still to be read ----

  function ReadLen(rest: seq<byte>, l: nat): Result<(nat, seq<byte>), Error> {
    if rest == [] then Err(OutOfBounds)
    else if rest[0] == 255 then ReadLen(rest[1..], l + 255)
    else Ok((l + rest[0], rest[1..]))
  }

  function ReadNibble(nibble: nat, rest: seq<byte>): Result<(nat, seq<byte>), Error> {
    if nibble == 15 then ReadLen(rest, 15) else Ok((nibble, rest))
  }

  lemma ReadLenShrinks(rest: seq<byte>, l: nat)
    ensures ReadLen(rest, l).Ok? ==> |ReadLen(rest, l).value.1| < |rest|
  {
  }

  function DecodeMatch(nibble: nat, rest: seq<byte>, out: seq<byte>): (r: Result<(seq<byte>, seq<byte>), Error>)
    ensures r.Ok? ==> |r.value.0| < |rest|
  {
    if |rest| < 2 then Err(OutOfBounds) else
    ReadLenShrinks(rest[2..], 15);
    var offset := FromLE(rest[..2]);
    match ReadNibble(nibble, rest[2..])
    case Err(e) => Err(e)
    case Ok((m, rest')) =>
      if offset == 0 || offset > |out| then Err(BadOffset)
      else Ok((rest', Copy(out, offset, m + MIN_MATCH)))
  }

  function Decode(rest: seq<byte>, out: seq<byte>): Result<seq<byte>, Error>
    decreases |rest|
  {
    if rest == [] then Ok(out) else
    var token := rest[0];
    ReadLenShrinks(rest[1..], 15);
    match ReadNibble(token / 16, rest[1..])
    case Err(e) => Err(e)
    case Ok((lit, rest')) =>
      if lit > |rest'| then Err(OutOfBounds)
      else if lit == |rest'| then Ok(out + rest')
      else
        match DecodeMatch(token % 16, rest'[lit..], out + rest'[..lit])
        case Err(e) => Err(e)
        case Ok((rest'', out')) => Decode(rest'', out')
  }

  function Decompressed(src: seq<byte>): Result<seq<byte>, Error> {
    if |src| < 4 then Err(Short) else
    match Decode(src[4..], [])
    case Err(e) => Err(e)
    case Ok(out) => if |out| == FromLE(src[..4]) then Ok(out) else Err(LengthMismatch)
  }

  // ---- decoding undoes encoding ----

  lemma {:induction false} ReadLenOfLenBytes(n: nat, l: nat, rest: seq<byte>)
    ensures ReadLen(LenBytes(n) + rest, l) == Ok((l + n, rest))
    decreases n
  {
    var b := LenBytes(n) + rest;
    if n >= 255 {
      assert b[1..] == LenBytes(n - 255) + rest;
      ReadLenOfLenBytes(n - 255, l + 255, rest);
    } else {
      assert b[1..] == rest;
    }
  }

  lemma ReadNibbleOfExt(n: nat, rest: seq<byte>)
    ensures ReadNibble(Min(n, 15), Ext(n) + rest) == Ok((n, rest))
  {
    if n >= 15 {
      ReadLenOfLenBytes(n - 15, 15, rest);
    } else {
      assert Ext(n) + rest == rest;
    }
  }

  lemma DecodeMatchOf(offset: nat, m: nat, rest: seq<byte>, out: seq<byte>)
    requires 1 <= offset <= |out| && offset < TWO_16
    ensures DecodeMatch(Min(m, 15), LE(offset, 2) + (Ext(m) + rest), out) == Ok((rest, Copy(out, offset, m + MIN_MATCH)))
  {
    hide ReadNibble, Ext, LE, FromLE, Copy, Pow256;
    var b := LE(offset, 2) + (Ext(m) + rest);
    Widths();
    FromLEOfLE(offset, 2);
    assert b[..2] == LE(offset, 2) && b[2..] == Ext(m) + rest;
    ReadNibbleOfExt(m, rest);
  }

  lemma TokenParts(lit: nat, m: nat)
    ensures Token(lit, m) / 16 == Min(lit, 15) && Token(lit, m) % 16 == Min(m, 15)
  {
  }

  /** The literals of a sequence are read back up to what follows them. */
  lemma ReadLiterals(m: nat, lits: seq<byte>, rest: seq<byte>)
    ensures var b := Literals(m, lits) + rest;
            && b[0] / 16 == Min(|lits|, 15) && b[0] % 16 == Min(m, 15)
            && ReadNibble(Min(|lits|, 15), b[1..]) == Ok((|lits|, lits + rest))
  {
    var b := Literals(m, lits) + rest;
    TokenParts(|lits|, m);
    assert b[1..] == Ext(|lits|) + (lits + rest);
    ReadNibbleOfExt(|lits|, lits + rest);
  }

  lemma DecodeLiterals(m: nat, lits: seq<byte>, rest: seq<byte>, out: seq<byte>)
    requires rest != [] && DecodeMatch(Min(m, 15), rest, out + lits).Ok?
    ensures var (rest', out') := DecodeMatch(Min(m, 15), rest, out + lits).value;
            Decode(Literals(m, lits) + rest, out) == Decode(rest', out')
  {
    hide DecodeMatch, ReadNibble, Literals;
    ReadLiterals(m, lits, rest);
    assert (lits + rest)[..|lits|] == lits && (lits + rest)[|lits|..] == rest;
  }

  lemma DecodeTail(tail: seq<byte>, out: seq<byte>)
    ensures Decode(Literals(0, tail), out) == Ok(out + tail)
  {
    ReadLiterals(0, tail, []);
    assert Literals(0, tail) + [] == Literals(0, tail) && tail + [] == tail;
  }

  /** One sequence is read back, whatever came before and whatever follows. */
  lemma DecodeSequence(s: Sequence, rest: seq<byte>, out: seq<byte>)
    requires ValidSequence(|out|, s)
    ensures Decode(EncodeSequence(s) + rest, out) == Decode(rest, Copy(out + s.lits, s.offset, s.matchLen))
  {
    hide Decode, DecodeMatch, Literals, Ext, LE, Copy;
    var m := s.matchLen - MIN_MATCH;
    var matchBytes := LE(s.offset, 2) + (Ext(m) + rest);
    assert EncodeSequence(s) + rest == Literals(m, s.lits) + matchBytes;
    DecodeMatchOf(s.offset, m, rest, out + s.lits);
    DecodeLiterals(m, s.lits, matchBytes, out);
  }

  lemma {:induction false} DecodeSequences(ss: seq<Sequence>, rest: seq<byte>)
    requires Valid(ss)
    ensures Decode(Encode(ss) + rest, []) == Decode(rest, Denote(ss))
    decreases |ss|
  {
    if ss == [] {
      assert Encode(ss) + rest == rest;
    } else {
      var init, s := ss[..|ss| - 1], ss[|ss| - 1];
      assert Encode(ss) + rest == Encode(init) + (EncodeSequence(s) + rest);
      DecodeSequences(init, EncodeSequence(s) + rest);
      DecodeSequence(s, rest, Denote(init));
    }
  }

  /** Any block, not only the compressor's, decodes to what it means. */
  lemma DecodeBlock(ss: seq<Sequence>, tail: seq<byte>)
    requires Valid(ss)
    ensures Decode(Encode(ss) + Literals(0, tail), []) == Ok(Denote(ss) + tail)
  {
    DecodeSequences(ss, Literals(0, tail));
    DecodeTail(tail, Denote(ss));
  }

  // ---- the size of a block ----

  lemma {:induction false} LenBytesSize(l: nat)
    ensures |LenBytes(l)| == l / 255 + 1
  {
    if l >= 255 {
      LenBytesSize(l - 255);
    }
  }

  lemma ExtSize(l: nat)
    ensures |Ext(l)| <= l / 255 + 1 && (l < 15 ==> Ext(l) == [])
  {
    if l >= 15 {
      LenBytesSize(l - 15);
    }
  }

  lemma SequenceSize(s: Sequence)
    requires s.matchLen >= MIN_MATCH
    ensures |EncodeSequence(s)| <= |s.lits| + s.matchLen + |s.lits| / 255
  {
    ExtSize(|s.lits|);
    ExtSize(s.matchLen - MIN_MATCH);
  }

  lemma {:induction false} SequencesSize(ss: seq<Sequence>)
    requires Valid(ss)
    ensures |Encode(ss)| <= |Denote(ss)| + |Denote(ss)| / 255
    decreases |ss|
  {
    if ss != [] {
      SequencesSize(ss[..|ss| - 1]);
      SequenceSize(ss[|ss| - 1]);
    }
  }

  // ---- the compressor ----

  /** The LZ4 block format's end-of-block conditions: the last five bytes are literals, and the last
      match starts at least twelve bytes before the end. */
  ghost predicate EndRules(ss: seq<Sequence>, tail: seq<byte>) {
    ss != [] ==> |tail| >= 5 && ss[|ss| - 1].matchLen + |tail| >= 12
  }

  /** What a size-prefixed block of `src` is: `ss` and `tail` describe it. */
  ghost predicate Compresses(src: seq<byte>, out: seq<byte>, ss: seq<Sequence>, tail: seq<byte>) {
    && Valid(ss) && Denote(ss) + tail == src
    && out == U32(|src|) + (Encode(ss) + Literals(0, tail))
  }

  /** The round trip: it succeeds exactly when the length fits its 32-bit prefix. */
  lemma DecompressesTo(src: seq<byte>, out: seq<byte>, ss: seq<Sequence>, tail: seq<byte>)
    requires Compresses(src, out, ss, tail)
    ensures Decompressed(out) == if |src| < TWO_32 then Ok(src) else Err(LengthMismatch)
  {
    hide Decode, Encode, Literals, LE, Valid;
    DecodeBlock(ss, tail);
    U32RoundTrip(|src|);
    assert out[..4] == U32(|src|) && out[4..] == Encode(ss) + Literals(0, tail);
  }

  lemma CompressedSize(src: seq<byte>, out: seq<byte>, ss: seq<Sequence>, tail: seq<byte>)
    requires Compresses(src, out, ss, tail)
    ensures |out| <= |src| + |src| / 255 + 6
  {
    SequencesSize(ss);
    ExtSize(|tail|);
  }

  lemma {:induction false} CopyIsSlice(src: seq<byte>, i: nat, offset: nat, n: nat)
    requires 1 <= offset <= i && i + n <= |src|
    requires src[i - offset..i - offset + n] == src[i..i + n]
    ensures Copy(src[..i], offset, n) == src[..i + n]
    decreases n
  {
    if n > 0 {
      var a, b := src[i - offset..i - offset + n], src[i..i + n];
      assert a[0] == src[i - offset] && b[0] == src[i];
      assert src[..i] + [src[i]] == src[..i + 1];
      assert a[1..] == src[i + 1 - offset..i + 1 - offset + (n - 1)] && b[1..] == src[i + 1..i + 1 + (n - 1)];
      CopyIsSlice(src, i + 1, offset, n - 1);
    }
  }

  lemma Extend(ss: seq<Sequence>, s: Sequence)
    requires Valid(ss) && ValidSequence(|Denote(ss)|, s)
    ensures Valid(ss + [s]) && Encode(ss + [s]) == Encode(ss) + EncodeSequence(s)
    ensures Denote(ss + [s]) == Copy(Denote(ss) + s.lits, s.offset, s.matchLen)
  {
    assert (ss + [s])[..|ss|] == ss;
  }

  function ReadU32(b: seq<byte>, i: nat): nat
    requires i + 4 <= |b|
  {
    FromLE(b[i..i + 4])
  }

  function Hash(v: nat): (h: nat)
    ensures h < 0x1_0000
  {
    v * 2654435761 % TWO_32 / TWO_16
  }

  method PutLen(out: seq<byte>, l: nat) returns (r: seq<byte>)
    ensures r == out + LenBytes(l)
  {
    r := out;
    var rem := l;
    while rem >= 255
      invariant r + LenBytes(rem) == out + LenBytes(l)
    {
      assert r + LenBytes(rem) == (r + [255]) + LenBytes(rem - 255);
      r := r + [255];
      rem := rem - 255;
    }
    r := r + [rem];
  }

  method PutLiterals(out: seq<byte>, lits: seq<byte>, m: nat) returns (r: seq<byte>)
    ensures r == out + Literals(m, lits)
  {
    r := out + [Token(|lits|, m)];
    if |lits| >= 15 {
      r := PutLen(r, |lits| - 15);
    }
    r := r + lits;
    assert r == out + Literals(m, lits);
  }

  method MatchLength(src: seq<byte>, cand: nat, i: nat) returns (ml: nat)
    requires cand < i && i + 12 < |src| && ReadU32(src, cand) == ReadU32(src, i)
    ensures MIN_MATCH <= ml && i + ml + 5 <= |src|
    ensures src[cand..cand + ml] == src[i..i + ml]
    ensures i + ml + 5 == |src| || src[cand + ml] != src[i + ml]
  {
    FromLEInjective(src[cand..cand + 4], src[i..i + 4]);
    ml := MIN_MATCH;
    var max := |src| - 5 - i;
    while ml < max && src[cand + ml] == src[i + ml]
      invariant MIN_MATCH <= ml <= max
      invariant src[cand..cand + ml] == src[i..i + ml]
    {
      assert src[cand..cand + ml + 1] == src[cand..cand + ml] + [src[cand + ml]];
      assert src[i..i + ml + 1] == src[i..i + ml] + [src[i + ml]];
      ml := ml + 1;
    }
  }

  method PutSequence(out: seq<byte>, lits: seq<byte>, offset: nat, ml: nat) returns (r: seq<byte>)
    requires ml >= MIN_MATCH
    ensures r == out + EncodeSequence(Sequence(lits, offset, ml))
  {
    hide Literals, LE, LenBytes;
    r := PutLiterals(out, lits, ml - MIN_MATCH);
    ghost var head := Literals(ml - MIN_MATCH, lits);
    r := r + LE(offset, 2);
    if ml - MIN_MATCH >= 15 {
      r := PutLen(r, ml - MIN_MATCH - 15);
      Joined(out, head, LE(offset, 2), LenBytes(ml - MIN_MATCH - 15));
    } else {
      Joined(out, head, LE(offset, 2), []);
    }
  }

  lemma Joined(a: seq<byte>, b: seq<byte>, c: seq<byte>, d: seq<byte>)
    ensures a + b + c + d == a + (b + c + d) && a + b + c == a + (b + c + [])
  {
  }

  lemma SliceJoins(src: seq<byte>, i: nat, j: nat)
    requires i <= j <= |src|
    ensures src[..i] + src[i..j] == src[..j]
  {
  }

  /** The same byte five times from position `j` on. */
  ghost predicate FiveAt(b: seq<byte>, j: nat) {
    j + 5 <= |b| && b[j] == b[j + 1] == b[j + 2] == b[j + 3] == b[j + 4]
  }

  ghost predicate Runless(b: seq<byte>) {
    forall j: nat :: !FiveAt(b, j)
  }

  /** Runs of one byte are left to matches, apart from the end of the block. */
  ghost predicate Compact(ss: seq<Sequence>, tail: seq<byte>) {
    AllRunless(ss) && (|tail| >= 9 ==> Runless(tail[..|tail| - 9]))
  }

  ghost predicate AllRunless(ss: seq<Sequence>) {
    forall k :: 0 <= k < |ss| ==> Runless(ss[k].lits)
  }

  /** No run of five starts from `anchor` up to two positions before `i`. */
  ghost predicate Differs(src: seq<byte>, anchor: nat, i: nat) {
    forall j: nat :: anchor <= j && j + 1 < i ==> !FiveAt(src, j)
  }

  lemma DiffersIsRunless(src: seq<byte>, anchor: nat, i: nat, e: nat)
    requires Differs(src, anchor, i) && anchor <= e <= i + 3 && e <= |src|
    ensures Runless(src[anchor..e])
  {
    forall j: nat ensures !FiveAt(src[anchor..e], j) {
      assert FiveAt(src[anchor..e], j) ==> FiveAt(src, anchor + j);
    }
  }

  /** A position whose four bytes are not those before it starts no run with it. */
  lemma RunIsFound(src: seq<byte>, anchor: nat, i: nat)
    requires Differs(src, anchor, i) && anchor <= i && i + 4 <= |src|
    requires i > anchor ==> ReadU32(src, i - 1) != ReadU32(src, i)
    ensures Differs(src, anchor, i + 1)
  {
    if i > anchor {
      RunRepeats(src, i - 1);
    }
  }

  lemma RunRepeats(src: seq<byte>, j: nat)
    requires j + 5 <= |src|
    ensures FiveAt(src, j) ==> ReadU32(src, j) == ReadU32(src, j + 1)
  {
    if FiveAt(src, j) {
      assert src[j..j + 4] == src[j + 1..j + 5];
    }
  }

  /** What is known of the block written so far: it denotes the source up to `anchor`, and no run was passed over
      since then. */
  ghost predicate SoFar(src: seq<byte>, ss: seq<Sequence>, anchor: nat, i: nat) {
    && anchor <= i <= |src| && Valid(ss) && Denote(ss) == src[..anchor] && EndRules(ss, src[anchor..])
    && (|src| < TWO_32 ==> AllRunless(ss) && Differs(src, anchor, i))
  }

  lemma NothingSoFar(src: seq<byte>)
    ensures SoFar(src, [], 0, 0) && Valid([]) && Encode([]) == []
  {
    hide Runless;
  }

  lemma MatchStep(src: seq<byte>, ss: seq<Sequence>, anchor: nat, i: nat, cand: nat, ml: nat)
    requires SoFar(src, ss, anchor, i) && cand < i && i - cand <= 0xFFFF && MIN_MATCH <= ml && i + ml + 5 <= |src| && i + 12 < |src|
    requires src[cand..cand + ml] == src[i..i + ml]
    ensures var s := Sequence(src[anchor..i], i - cand, ml);
            SoFar(src, ss + [s], i + ml, i + ml) && Valid(ss + [s]) && Encode(ss + [s]) == Encode(ss) + EncodeSequence(s)
  {
    hide Runless, EncodeSequence, Copy, Valid, Denote, Encode;
    var s := Sequence(src[anchor..i], i - cand, ml);
    SliceJoins(src, anchor, i);
    CopyIsSlice(src, i, i - cand, ml);
    Extend(ss, s);
    if |src| < TWO_32 {
      DiffersIsRunless(src, anchor, i, i);
    }
  }

  lemma LiteralStep(src: seq<byte>, ss: seq<Sequence>, anchor: nat, i: nat)
    requires SoFar(src, ss, anchor, i) && i + 4 <= |src|
    requires i > anchor && |src| < TWO_32 ==> ReadU32(src, i - 1) != ReadU32(src, i)
    ensures SoFar(src, ss, anchor, i + 1)
  {
    hide Runless, ReadU32, Valid, Denote, EndRules, AllRunless;
    if |src| < TWO_32 {
      RunIsFound(src, anchor, i);
    }
  }

  lemma TailIsCompact(src: seq<byte>, ss: seq<Sequence>, anchor: nat, i: nat)
    requires SoFar(src, ss, anchor, i) && |src| < i + 13
    ensures Denote(ss) + src[anchor..] == src && EndRules(ss, src[anchor..]) && Valid(ss)
    ensures |src| < TWO_32 ==> Compact(ss, src[anchor..])
  {
    hide Runless, Valid, Denote;
    SliceJoins(src, anchor, |src|);
    var tail := src[anchor..];
    if |src| < TWO_32 && |tail| >= 9 {
      DiffersIsRunless(src, anchor, i, |src| - 9);
      assert src[anchor..|src| - 9] == tail[..|tail| - 9];
    }
  }

  /** `compress_prepend_size`, with a description of the block it writes. */
  method Compress(src: seq<byte>) returns (out: seq<byte>, ghost ss: seq<Sequence>, ghost tail: seq<byte>)
    ensures Compresses(src, out, ss, tail) && EndRules(ss, tail)
    ensures Decompressed(out) == if |src| < TWO_32 then Ok(src) else Err(LengthMismatch)
    ensures |out| <= |src| + |src| / 255 + 6
    ensures |src| < TWO_32 ==> Compact(ss, tail)
  {
    hide SoFar, Compact, EndRules, LE, EncodeSequence, Literals, Decompressed, Copy, FromLE, ReadU32, Valid, Denote, Encode, Hash;
    out, ss := U32(|src|), [];
    NothingSoFar(src);
    if |src| < 13 {
      out := PutLiterals(out, src, 0);
      tail := src;
      TailIsCompact(src, [], 0, 0);
    } else {
      var table := new nat[0x1_0000](_ => 0);
      var i: nat, anchor: nat := 0, 0;
      while i < |src| - 12
        invariant anchor <= i <= |src| - 5 && SoFar(src, ss, anchor, i) && Valid(ss) && out == U32(|src|) + Encode(ss)
        invariant anchor < i <= |src| - 12 && |src| < TWO_32 ==> table[Hash(ReadU32(src, i - 1))] == i - 1
      {
        var h := Hash(ReadU32(src, i));
        var cand := table[h];
        table[h] := i % TWO_32;
        if i > cand && i - cand <= 0xFFFF && ReadU32(src, cand) == ReadU32(src, i) {
          var ml := MatchLength(src, cand, i);
          out := PutSequence(out, src[anchor..i], i - cand, ml);
          MatchStep(src, ss, anchor, i, cand, ml);
          ss := ss + [Sequence(src[anchor..i], i - cand, ml)];
          i := i + ml;
          anchor := i;
        } else {
          LiteralStep(src, ss, anchor, i);
          i := i + 1;
        }
      }
      tail := src[anchor..];
      out := PutLiterals(out, src[anchor..], 0);
      TailIsCompact(src, ss, anchor, i);
    }
    DecompressesTo(src, out, ss, tail);
    CompressedSize(src, out, ss, tail);
  }

  // ---- the decompressor ----

  ghost predicate ReadsTo(src: seq<byte>, spec: Result<(nat, seq<byte>), Error>, r: Result<(nat, nat), Error>) {
    match spec
    case Err(e) => r == Err(e)
    case Ok((n, rest)) => r.Ok? && r.value.0 == n && r.value.1 <= |src| && src[r.value.1..] == rest
  }

  /** A length nibble, and the bytes that continue it. */
  method ReadLength(src: seq<byte>, nibble: nat, start: nat) returns (r: Result<(nat, nat), Error>)
    requires start <= |src|
    ensures ReadsTo(src, ReadNibble(nibble, src[start..]), r)
    ensures r.Ok? ==> start <= r.value.1
  {
    var i: nat, n: nat := start, nibble;
    if nibble == 15 {
      while true
        invariant start <= i <= |src|
        invariant ReadLen(src[i..], n) == ReadLen(src[start..], 15)
        decreases |src| - i
      {
        if i == |src| {
          return Err(OutOfBounds);
        }
        var b := src[i];
        assert src[i..][1..] == src[i + 1..];
        i := i + 1;
        n := n + b;
        if b != 255 {
          break;
        }
      }
    }
    r := Ok((n, i));
  }

  method CopyLoop(out: seq<byte>, offset: nat, ml: nat) returns (r: seq<byte>)
    requires 1 <= offset <= |out|
    ensures r == Copy(out, offset, ml)
  {
    r := out;
    var start := |out| - offset;
    for k := 0 to ml
      invariant |r| == |out| + k
      invariant Copy(r, offset, ml - k) == Copy(out, offset, ml)
    {
      var b := r[start + k];
      r := r + [b];
    }
  }

  /** The match part of a sequence. */
  method CopyMatch(src: seq<byte>, nibble: nat, i: nat, out: seq<byte>) returns (r: Result<(nat, seq<byte>), Error>)
    requires i <= |src|
    ensures match DecodeMatch(nibble, src[i..], out)
            case Err(e) => r == Err(e)
            case Ok((rest, out')) => r.Ok? && i <= r.value.0 <= |src| && src[r.value.0..] == rest && r.value.1 == out'
  {
    hide ReadNibble, FromLE, Copy;
    if i + 2 > |src| {
      return Err(OutOfBounds);
    }
    var offset := FromLE(src[i..i + 2]);
    assert src[i..][..2] == src[i..i + 2] && src[i..][2..] == src[i + 2..];
    var ml := ReadLength(src, nibble, i + 2);
    if ml.Err? {
      return Err(ml.error);
    }
    if offset == 0 || offset > |out| {
      return Err(BadOffset);
    }
    var copied := CopyLoop(out, offset, ml.value.0 + MIN_MATCH);
    r := Ok((ml.value.1, copied));
  }

  method DecodeLoop(src: seq<byte>) returns (r: Result<seq<byte>, Error>)
    requires 4 <= |src|
    ensures r == Decode(src[4..], [])
  {
    hide ReadNibble, DecodeMatch;
    var out: seq<byte> := [];
    var i: nat := 4;
    while i < |src|
      invariant 4 <= i <= |src|
      invariant Decode(src[i..], out) == Decode(src[4..], [])
      decreases |src| - i
    {
      var token := src[i];
      assert src[i..][1..] == src[i + 1..];
      var lit := ReadLength(src, token / 16, i + 1);
      if lit.Err? {
        return Err(lit.error);
      }
      var j := lit.value.1;
      var end := j + lit.value.0;
      if end > |src| {
        return Err(OutOfBounds);
      }
      assert src[j..][..end - j] == src[j..end] && src[j..][end - j..] == src[end..];
      out := out + src[j..end];
      if end == |src| {
        assert src[j..] == src[j..end];
        return Ok(out);  // the last sequence has no match part
      }
      var copied := CopyMatch(src, token % 16, end, out);
      if copied.Err? {
        return Err(copied.error);
      }
      i, out := copied.value.0, copied.value.1;
    }
    r := Ok(out);
  }

  /** `decompress_size_prepended`. */
  method Decompress(src: seq<byte>) returns (r: Result<seq<byte>, Error>)
    ensures r == Decompressed(src)
  {
    if |src| < 4 {
      return Err(Short);
    }
    r := DecodeLoop(src);
    if r.Ok? && |r.value| != FromLE(src[..4]) {
      r := Err(LengthMismatch);
    }
  }
}
