/** The JSON texts that are accepted. */
module JsonGrammar {
  /* Syntax trees with every choice a writer has (white space, escapes, spellings of numbers), the text and the value
     of each, and the proof that parsing accepts exactly these texts and gives their values. */

  import opened Wrappers
  import opened Bytes
  import opened Unicode
  import opened JsonText
  import opened Json

  // ---- syntax ----

  /** A hexadecimal digit; a plus sign may take the place of the first one. */
  datatype HexSign = Lower(d: nat) | Upper(d: nat) | Plus

  /** A character of a string: as it is, after a backslash, or by its number. */
  datatype Char = Raw(c: Scalar) | Short(e: byte) | Hex(h: seq<HexSign>)

  datatype Exponent = Exponent(e: byte, sign: seq<byte>, digits: seq<byte>)

  datatype Number = Number(sign: seq<byte>, digits: seq<byte>, fraction: Option<seq<byte>>, exponent: Option<Exponent>)

  datatype Doc =
    | DNull
    | DBool(b: bool)
    | DNum(n: Number)
    | DStr(s: seq<Char>)
    | DNoItems(blank: seq<byte>)
    | DArr(items: Items)
    | DNoMembers(blank: seq<byte>)
    | DObj(members: Members)

  /** An element with the white space around it. */
  datatype Item = Item(before: seq<byte>, value: Doc, after: seq<byte>)

  datatype Items = LastItem(it: Item) | MoreItems(it: Item, items: Items)

  datatype Member = Member(before: seq<byte>, key: seq<Char>, after: seq<byte>, it: Item)

  datatype Members = LastMember(m: Member) | MoreMembers(m: Member, members: Members)

  const BLANKS: seq<byte> := [0x20, 0x09, 0x0A, 0x0D]

  ghost predicate IsBlank(w: seq<byte>) {
    forall i :: 0 <= i < |w| ==> w[i] in BLANKS
  }

  // ---- characters ----

  function HexByte(h: HexSign): byte
    requires ValidHex(h)
  {
    match h
    case Lower(d) => if d < 10 then 0x30 + d else 0x61 + (d - 10)
    case Upper(d) => 0x41 + (d - 10)
    case Plus => 0x2B
  }

  predicate ValidHex(h: HexSign) {
    match h
    case Lower(d) => d < 16
    case Upper(d) => 10 <= d < 16
    case Plus => true
  }

  function HexOfSign(h: HexSign): nat {
    if h.Plus? then 0 else h.d
  }

  const SHORTS: map<byte, Scalar> :=
    map[0x22 := 0x22, 0x5C := 0x5C, 0x2F := 0x2F, 0x62 := 0x08, 0x66 := 0x0C, 0x6E := 0x0A, 0x72 := 0x0D, 0x74 := 0x09]

  predicate ValidChar(c: Char) {
    match c
    case Raw(c) => c != QUOTE && c != BACKSLASH
    case Short(e) => e in SHORTS
    case Hex(h) => |h| == 4 && (forall i :: 0 <= i < 4 ==> ValidHex(h[i]) && (h[i].Plus? ==> i == 0))
  }

  function CharText(c: Char): seq<byte>
    requires ValidChar(c)
  {
    match c
    case Raw(c) => Utf8(c)
    case Short(e) => [BACKSLASH, e]
    case Hex(h) => [BACKSLASH, 0x75, HexByte(h[0]), HexByte(h[1]), HexByte(h[2]), HexByte(h[3])]
  }

  /** A number that is no scalar value stands for the replacement character. */
  function CharValue(c: Char): Scalar
    requires ValidChar(c)
  {
    match c
    case Raw(c) => c
    case Short(e) => SHORTS[e]
    case Hex(h) =>
      var v := 4096 * HexOfSign(h[0]) + 256 * HexOfSign(h[1]) + 16 * HexOfSign(h[2]) + HexOfSign(h[3]);
      if IsScalar(v) then v else 0xFFFD
  }

  predicate ValidChars(s: seq<Char>) {
    forall i :: 0 <= i < |s| ==> ValidChar(s[i])
  }

  function CharsText(s: seq<Char>): seq<byte>
    requires ValidChars(s)
  {
    if s == [] then [] else CharText(s[0]) + CharsText(s[1..])
  }

  function CharsValue(s: seq<Char>): (v: seq<Scalar>)
    requires ValidChars(s)
    ensures |v| == |s| && forall i :: 0 <= i < |s| ==> v[i] == CharValue(s[i])
  {
    seq(|s|, i requires 0 <= i < |s| => CharValue(s[i]))
  }

  function StringText(s: seq<Char>): seq<byte>
    requires ValidChars(s)
  {
    [QUOTE] + (CharsText(s) + [QUOTE])
  }

  // ---- characters, parsed ----

  lemma HexValueOf(h: HexSign)
    requires ValidHex(h) && !h.Plus?
    ensures HexValue(HexByte(h)) == Some(h.d)
  {
  }

  lemma HexPlus(h: HexSign)
    requires ValidHex(h)
    ensures HexByte(h) == 0x2B <==> h.Plus?
  {
  }

  lemma HexOfText(h: seq<HexSign>, b: seq<byte>, p: nat)
    requires ValidChar(Hex(h)) && At(b, p, CharText(Hex(h)))
    ensures Hex4(b, p + 2) == Some(4096 * HexOfSign(h[0]) + 256 * HexOfSign(h[1]) + 16 * HexOfSign(h[2]) + HexOfSign(h[3]))
  {
    var x := CharText(Hex(h));
    AtByte(b, p, x, 2);
    AtByte(b, p, x, 3);
    AtByte(b, p, x, 4);
    AtByte(b, p, x, 5);
    HexPlus(h[0]);
    HexValueOf(h[1]);
    HexValueOf(h[2]);
    HexValueOf(h[3]);
    if !h[0].Plus? {
      HexValueOf(h[0]);
    }
    hide HexByte, HexValue, ValidHex;
    var d0, d1, d2, d3 := HexOfSign(h[0]), HexOfSign(h[1]), HexOfSign(h[2]), HexOfSign(h[3]);
    assert HexRun(b, p + 6, 0, 4096 * d0 + 256 * d1 + 16 * d2 + d3) == Some(4096 * d0 + 256 * d1 + 16 * d2 + d3);
    assert HexRun(b, p + 5, 1, 256 * d0 + 16 * d1 + d2) == Some(4096 * d0 + 256 * d1 + 16 * d2 + d3);
    assert HexRun(b, p + 4, 2, 16 * d0 + d1) == Some(4096 * d0 + 256 * d1 + 16 * d2 + d3);
    assert HexRun(b, p + 3, 3, d0) == Some(4096 * d0 + 256 * d1 + 16 * d2 + d3);
  }

  lemma ParseAnyChar(c: Char, b: seq<byte>, p: nat)
    requires ValidChar(c) && At(b, p, CharText(c))
    ensures CharText(c) != [] && p < |b| && b[p] != QUOTE && ParseChar(b, p) == Ok((CharValue(c), p + |CharText(c)|))
  {
    hide Utf8, FromUtf8, Width, Hex4, HexByte;
    match c {
      case Raw(s) =>
        hide ParseEscape;
        Utf8Plain(s);
        FromUtf8OfUtf8(s);
        AtByte(b, p, Utf8(s), 0);
      case Short(e) =>
        AtByte(b, p, CharText(c), 0);
        AtByte(b, p, CharText(c), 1);
      case Hex(h) =>
        AtByte(b, p, CharText(c), 0);
        AtByte(b, p, CharText(c), 1);
        HexOfText(h, b, p);
    }
  }

  lemma {:induction false} ParseAnyChars(s: seq<Char>, b: seq<byte>, p: nat)
    requires ValidChars(s) && At(b, p, CharsText(s) + [QUOTE])
    ensures ParseChars(b, p) == Ok((CharsValue(s), p + |CharsText(s)| + 1))
    decreases |s|
  {
    hide At, CharText, CharValue, ParseChar, ValidChar;
    AtInside(b, p, CharsText(s) + [QUOTE]);
    if s == [] {
      assert CharsText(s) + [QUOTE] == [QUOTE];
      AtByte(b, p, [QUOTE], 0);
    } else {
      assert CharsText(s) + [QUOTE] == CharText(s[0]) + (CharsText(s[1..]) + [QUOTE]);
      AtParts(b, p, CharText(s[0]), CharsText(s[1..]) + [QUOTE]);
      AtInside(b, p, CharText(s[0]));
      ParseAnyChar(s[0], b, p);
      ParseAnyChars(s[1..], b, p + |CharText(s[0])|);
      assert CharsValue(s) == [CharValue(s[0])] + CharsValue(s[1..]);
    }
  }

  lemma AtJoin(b: seq<byte>, p: nat, x: seq<byte>, y: seq<byte>)
    requires At(b, p, x) && At(b, p + |x|, y)
    ensures At(b, p, x + y)
  {
    assert b[p..p + |x + y|] == b[p..p + |x|] + b[p + |x|..p + |x| + |y|];
  }

  lemma HexSigned(x: byte) returns (h: HexSign)
    requires HexValue(x).Some?
    ensures ValidHex(h) && !h.Plus? && HexByte(h) == x && h.d == HexValue(x).value
  {
    var d := HexValue(x).value;
    h := if 0x41 <= x < 0x47 then Upper(d) else Lower(d);
  }

  lemma HexDigitsOf(b: seq<byte>, p: nat)
    requires p + 4 <= |b| && Hex4(b, p).Some?
    ensures b[p] == 0x2B || HexValue(b[p]).Some?
    ensures HexValue(b[p + 1]).Some? && HexValue(b[p + 2]).Some? && HexValue(b[p + 3]).Some?
  {
    hide HexValue;
  }

  /** Whatever is read as a character is the text of one. */
  lemma CharGiven(b: seq<byte>, p: nat) returns (c: Char)
    requires p < |b| && b[p] != QUOTE && ParseChar(b, p).Ok?
    ensures ValidChar(c) && At(b, p, CharText(c)) && ParseChar(b, p) == Ok((CharValue(c), p + |CharText(c)|))
  {
    hide Hex4, FromUtf8;
    var (v, q) := ParseChar(b, p).value;
    if b[p] != BACKSLASH {
      c := Raw(v);
      RawGiven(b, p);
    } else if b[p + 1] == 0x75 {
      hide ParseChar;
      c := HexGiven(b, p);
      ParseAnyChar(c, b, p);
    } else {
      c := Short(b[p + 1]);
      hide ParseChar;
      assert b[p..p + 2] == CharText(c);
      ParseAnyChar(c, b, p);
    }
  }

  lemma HexGiven(b: seq<byte>, p: nat) returns (c: Char)
    requires p + 6 <= |b| && b[p] == BACKSLASH && b[p + 1] == 0x75 && Hex4(b, p + 2).Some?
    ensures ValidChar(c) && At(b, p, CharText(c))
  {
    HexDigitsOf(b, p + 2);
    hide HexByte, HexValue, Hex4;
    var h1 := HexSigned(b[p + 3]);
    var h2 := HexSigned(b[p + 4]);
    var h3 := HexSigned(b[p + 5]);
    var h0 := Plus;
    HexPlus(h0);
    if b[p + 2] != 0x2B {
      h0 := HexSigned(b[p + 2]);
    }
    c := Hex([h0, h1, h2, h3]);
    assert b[p..p + 6] == CharText(c);
  }

  lemma RawGiven(b: seq<byte>, p: nat)
    requires p < |b| && b[p] != QUOTE && b[p] != BACKSLASH && ParseChar(b, p).Ok?
    ensures var c := Raw(ParseChar(b, p).value.0);
            ValidChar(c) && At(b, p, CharText(c)) && ParseChar(b, p) == Ok((CharValue(c), p + |CharText(c)|))
  {
    hide Utf8, Candidate;
    var n := Width(b[p]);
    var c := FromUtf8(b[p..p + n]).value;
    assert Utf8(c) == b[p..p + n] && b[p..p + n][0] == b[p];
    AsciiUtf8();
  }

  lemma AsciiUtf8()
    ensures Utf8(0x22) == [0x22] && Utf8(0x5C) == [0x5C]
  {
  }

  lemma {:induction false} CharsGiven(b: seq<byte>, p: nat) returns (s: seq<Char>)
    requires p <= |b| && ParseChars(b, p).Ok?
    ensures ValidChars(s) && At(b, p, CharsText(s) + [QUOTE])
    ensures ParseChars(b, p) == Ok((CharsValue(s), p + |CharsText(s)| + 1))
    decreases |b| - p
  {
    hide CharText, CharValue, ParseChar, ValidChar, At;
    if b[p] == QUOTE {
      s := [];
      assert CharsText(s) + [QUOTE] == [QUOTE];
      AtOne(b, p);
    } else {
      var c := CharGiven(b, p);
      var rest := CharsGiven(b, p + |CharText(c)|);
      s := [c] + rest;
      assert s[1..] == rest;
      assert CharsText(s) + [QUOTE] == CharText(c) + (CharsText(rest) + [QUOTE]);
      AtJoin(b, p, CharText(c), CharsText(rest) + [QUOTE]);
    }
    ParseAnyChars(s, b, p);
  }

  lemma AtOne(b: seq<byte>, p: nat)
    requires p < |b|
    ensures At(b, p, [b[p]])
  {
  }

  // ---- numbers ----

  predicate IsSign(s: seq<byte>) {
    s == [] || s == [0x2D] || s == [0x2B]
  }

  predicate AllDigits(d: seq<byte>) {
    forall i :: 0 <= i < |d| ==> 0x30 <= d[i] < 0x3A
  }

  /** At least one digit before or after the point. */
  predicate ValidNumber(n: Number) {
    && IsSign(n.sign) && AllDigits(n.digits) && (n.fraction.Some? ==> AllDigits(n.fraction.value))
    && (n.digits != [] || (n.fraction.Some? && n.fraction.value != []))
    && (n.exponent.Some? ==> ValidExponent(n.exponent.value))
  }

  predicate ValidExponent(x: Exponent) {
    (x.e == 0x65 || x.e == 0x45) && IsSign(x.sign) && AllDigits(x.digits) && x.digits != []
  }

  function ExponentText(x: Option<Exponent>): seq<byte> {
    if x.None? then [] else [x.value.e] + (x.value.sign + x.value.digits)
  }

  function FractionText(f: Option<seq<byte>>): seq<byte> {
    if f.None? then [] else [0x2E] + f.value
  }

  function NumberText(n: Number): seq<byte> {
    n.sign + (n.digits + (FractionText(n.fraction) + ExponentText(n.exponent)))
  }

  /** An integer below the limit has its value; any other number is its text. */
  function NumberValue(n: Number): Json
    requires ValidNumber(n)
  {
    if n.fraction.None? && n.exponent.None? && n.sign != [0x2B] && NatOf(n.digits).Some? && NatOf(n.digits).value < LIMIT
    then Num(if n.sign == [] then NatOf(n.digits).value else -(NatOf(n.digits).value as int))
    else Float(NumberText(n))
  }

  lemma {:induction false} NatOfIff(d: seq<byte>)
    ensures NatOf(d).Some? <==> AllDigits(d)
    decreases |d|
  {
    if d != [] {
      NatOfIff(d[..|d| - 1]);
    }
  }

  lemma {:induction false} DigitsEndIs(text: seq<byte>, i: nat, j: nat)
    requires i <= j <= |text| && (forall k :: i <= k < j ==> 0x30 <= text[k] < 0x3A)
    requires j == |text| || !(0x30 <= text[j] < 0x3A)
    ensures DigitsEnd(text, i) == j
    decreases j - i
  {
    if i < j {
      DigitsEndIs(text, i + 1, j);
    }
  }

  lemma {:induction false} DigitsEndDigits(text: seq<byte>, i: nat)
    requires i <= |text|
    ensures AllDigits(text[i..DigitsEnd(text, i)])
    decreases |text| - i
  {
    if i < DigitsEnd(text, i) {
      DigitsEndDigits(text, i + 1);
      assert text[i..DigitsEnd(text, i)] == [text[i]] + text[i + 1..DigitsEnd(text, i)];
    }
  }

  lemma DigitsAt(text: seq<byte>, i: nat, d: seq<byte>)
    requires At(text, i, d) && AllDigits(d)
    requires i + |d| == |text| || !(0x30 <= text[i + |d|] < 0x3A)
    ensures DigitsEnd(text, i) == i + |d|
  {
    forall k | i <= k < i + |d| ensures text[k] == d[k - i] {
      AtByte(text, i, d, k - i);
    }
    DigitsEndIs(text, i, i + |d|);
  }

  /** Where the parts of a number stand in its text. */
  lemma NumberParts(n: Number)
    requires ValidNumber(n)
    ensures var text := NumberText(n);
            var j := |n.sign| + |n.digits|;
            var k := j + |FractionText(n.fraction)|;
            && |text| == k + |ExponentText(n.exponent)|
            && At(text, 0, n.sign) && At(text, |n.sign|, n.digits) && At(text, j, FractionText(n.fraction)) && At(text, k, ExponentText(n.exponent))
  {
    hide At;
    var text := NumberText(n);
    AtWhole(text);
    AtParts(text, 0, n.sign, n.digits + (FractionText(n.fraction) + ExponentText(n.exponent)));
    AtParts(text, |n.sign|, n.digits, FractionText(n.fraction) + ExponentText(n.exponent));
    AtParts(text, |n.sign| + |n.digits|, FractionText(n.fraction), ExponentText(n.exponent));
  }

  lemma AtWhole(text: seq<byte>)
    ensures At(text, 0, text)
  {
    assert text[0..|text|] == text;
  }

  lemma ExponentIs(text: seq<byte>, k: nat, x: Exponent)
    requires ValidExponent(x) && At(text, k, ExponentText(Some(x))) && k + |ExponentText(Some(x))| == |text|
    ensures text[k] == x.e && SignEnd(text, k + 1) == k + 1 + |x.sign| < |text| && DigitsEnd(text, k + 1 + |x.sign|) == |text|
  {
    hide At;
    AtByte(text, k, ExponentText(Some(x)), 0);
    AtByte(text, k, ExponentText(Some(x)), 1);
    AtParts(text, k, [x.e], x.sign + x.digits);
    AtParts(text, k + 1, x.sign, x.digits);
    DigitsAt(text, k + 1 + |x.sign|, x.digits);
  }

  /** Where the fraction starts and ends, if there is one, and what follows it. */
  lemma FractionIs(n: Number)
    requires ValidNumber(n)
    ensures var text := NumberText(n);
            var j := |n.sign| + |n.digits|;
            var k := j + |FractionText(n.fraction)|;
            && k <= |text|
            && (k < |text| <==> n.exponent.Some?) && (k < |text| ==> text[k] == n.exponent.value.e)
            && (j < |text| && text[j] == 0x2E <==> n.fraction.Some?) && (n.fraction.Some? ==> DigitsEnd(text, j + 1) == k)
  {
    hide At;
    NumberParts(n);
    var text := NumberText(n);
    var j := |n.sign| + |n.digits|;
    var k := j + |FractionText(n.fraction)|;
    if n.exponent.Some? {
      AtByte(text, k, ExponentText(n.exponent), 0);
    }
    if n.fraction.Some? {
      AtByte(text, j, FractionText(n.fraction), 0);
      AtParts(text, j, [0x2E], n.fraction.value);
      DigitsAt(text, j + 1, n.fraction.value);
    }
  }

  lemma FirstIs(n: Number)
    requires ValidNumber(n)
    ensures var text := NumberText(n);
            text != [] && SignEnd(text, 0) == |n.sign| && DigitsEnd(text, |n.sign|) == |n.sign| + |n.digits|
  {
    hide At;
    NumberParts(n);
    FractionIs(n);
    var text := NumberText(n);
    if n.sign != [] {
      AtByte(text, 0, n.sign, 0);
    } else if n.digits != [] {
      AtByte(text, 0, n.digits, 0);
    }
    DigitsAt(text, |n.sign|, n.digits);
  }

  lemma FloatIs(n: Number)
    requires ValidNumber(n)
    ensures IsFloat(NumberText(n))
  {
    hide DigitsEnd, SignEnd, NumberText;
    FirstIs(n);
    FractionIs(n);
    NumberParts(n);
    if n.exponent.Some? {
      ExponentIs(NumberText(n), |n.sign| + |n.digits| + |FractionText(n.fraction)|, n.exponent.value);
    }
  }

  lemma FractionGiven(text: seq<byte>, j: nat) returns (f: Option<seq<byte>>, k: nat)
    requires j <= |text|
    ensures k == if j < |text| && text[j] == 0x2E then DigitsEnd(text, j + 1) else j
    ensures (f.Some? <==> k > j) && (f.Some? ==> AllDigits(f.value) && |f.value| == k - j - 1) && FractionText(f) == text[j..k]
  {
    if j < |text| && text[j] == 0x2E {
      k := DigitsEnd(text, j + 1);
      DigitsEndDigits(text, j + 1);
      f := Some(text[j + 1..k]);
      assert text[j..k] == [0x2E] + text[j + 1..k];
    } else {
      f, k := None, j;
    }
  }

  lemma ExponentGiven(text: seq<byte>, k: nat) returns (x: Option<Exponent>)
    requires k <= |text|
    requires k == |text| || ((text[k] == 0x65 || text[k] == 0x45) && SignEnd(text, k + 1) < |text| == DigitsEnd(text, SignEnd(text, k + 1)))
    ensures (x.Some? ==> ValidExponent(x.value)) && ExponentText(x) == text[k..]
  {
    if k == |text| {
      x := None;
    } else {
      var m := SignEnd(text, k + 1);
      DigitsEndDigits(text, m);
      assert text[m..|text|] == text[m..];
      x := Some(Exponent(text[k], text[k + 1..m], text[m..]));
      assert text[k..] == [text[k]] + (text[k + 1..m] + text[m..]);
    }
  }

  lemma SignGiven(text: seq<byte>)
    ensures IsSign(text[..SignEnd(text, 0)])
  {
  }

  lemma Rejoined(text: seq<byte>, i: nat, j: nat, k: nat)
    requires i <= j <= k <= |text|
    ensures text == text[..i] + (text[i..j] + (text[j..k] + text[k..]))
  {
  }

  /** Every text taken for a number is one. */
  lemma FloatGiven(text: seq<byte>) returns (n: Number)
    requires IsFloat(text)
    ensures ValidNumber(n) && NumberText(n) == text
  {
    hide DigitsEnd, SignEnd, ExponentText, FractionText, ValidExponent, IsSign, AllDigits;
    var i := SignEnd(text, 0);
    var j := DigitsEnd(text, i);
    SignGiven(text);
    DigitsEndDigits(text, i);
    var fraction, k := FractionGiven(text, j);
    var exponent := ExponentGiven(text, k);
    n := Number(text[..i], text[i..j], fraction, exponent);
    Rejoined(text, i, j, k);
  }

  lemma IntegerGiven(text: seq<byte>) returns (n: Number)
    requires IntegerOf(text).Some?
    ensures ValidNumber(n) && NumberText(n) == text
  {
    if text[0] == 0x2D {
      NatOfIff(text[1..]);
      n := Number([0x2D], text[1..], None, None);
    } else {
      NatOfIff(text);
      n := Number([], text, None, None);
    }
    assert n.digits + ([] + []) == n.digits;
  }

  /** An integer spelled with a plus sign, a point or an exponent is not taken for one. */
  lemma NotInteger(n: Number)
    requires ValidNumber(n) && (n.fraction.Some? || n.exponent.Some? || n.sign == [0x2B])
    ensures IntegerOf(NumberText(n)) == None
  {
    hide NumberText;
    FractionIs(n);
    var text, j := NumberText(n), |n.sign| + |n.digits|;
    NumberParts(n);
    if n.sign == [0x2B] {
      AtByte(text, 0, n.sign, 0);
    }
    NatOfIff(text);
    NatOfIff(text[1..]);
    if text[0] == 0x2D && n.sign != [0x2B] {
      FirstIs(n);
      assert j > 0 && text[1..][j - 1] == text[j];
    }
  }

  lemma NumberIs(n: Number)
    requires ValidNumber(n)
    ensures NumberOf(NumberText(n)) == Some(NumberValue(n))
  {
    FloatIs(n);
    if n.fraction.Some? || n.exponent.Some? || n.sign == [0x2B] {
      NotInteger(n);
    } else {
      assert n.digits + ([] + []) == n.digits;
      NatOfIff(n.digits);
      if n.sign == [0x2D] {
        assert NumberText(n)[1..] == n.digits;
      } else {
        assert NumberText(n) == n.digits;
      }
    }
  }

  lemma NumberGiven(text: seq<byte>) returns (n: Number)
    requires NumberOf(text).Some?
    ensures ValidNumber(n) && NumberText(n) == text
  {
    hide IntegerOf, IsFloat, NumberText, ValidNumber;
    if IntegerOf(text).Some? {
      n := IntegerGiven(text);
    } else {
      n := FloatGiven(text);
    }
  }

  // ---- documents ----

  ghost predicate ValidDoc(d: Doc) {
    match d
    case DNum(n) => ValidNumber(n)
    case DStr(s) => ValidChars(s)
    case DNoItems(blank) => IsBlank(blank)
    case DArr(items) => ValidItems(items)
    case DNoMembers(blank) => IsBlank(blank)
    case DObj(members) => ValidMembers(members)
    case _ => true
  }

  ghost predicate ValidItem(it: Item) {
    IsBlank(it.before) && ValidDoc(it.value) && IsBlank(it.after)
  }

  ghost predicate ValidItems(items: Items) {
    ValidItem(items.it) && (items.MoreItems? ==> ValidItems(items.items))
  }

  ghost predicate ValidMember(m: Member) {
    IsBlank(m.before) && ValidChars(m.key) && IsBlank(m.after) && ValidItem(m.it)
  }

  ghost predicate ValidMembers(members: Members) {
    ValidMember(members.m) && (members.MoreMembers? ==> ValidMembers(members.members))
  }

  ghost function DocText(d: Doc): seq<byte>
    requires ValidDoc(d)
  {
    match d
    case DNull => [0x6E, 0x75, 0x6C, 0x6C]
    case DBool(b) => if b then [0x74, 0x72, 0x75, 0x65] else [0x66, 0x61, 0x6C, 0x73, 0x65]
    case DNum(n) => NumberText(n)
    case DStr(s) => StringText(s)
    case DNoItems(blank) => [0x5B] + (blank + [0x5D])
    case DArr(items) => [0x5B] + ItemsText(items)
    case DNoMembers(blank) => [0x7B] + (blank + [0x7D])
    case DObj(members) => [0x7B] + MembersText(members)
  }

  ghost function ItemText(it: Item): seq<byte>
    requires ValidItem(it)
  {
    it.before + (DocText(it.value) + it.after)
  }

  ghost function ItemsText(items: Items): seq<byte>
    requires ValidItems(items)
  {
    match items
    case LastItem(it) => ItemText(it) + [0x5D]
    case MoreItems(it, more) => ItemText(it) + ([COMMA] + ItemsText(more))
  }

  ghost function MemberText(m: Member): seq<byte>
    requires ValidMember(m)
  {
    m.before + (StringText(m.key) + (m.after + ([COLON] + ItemText(m.it))))
  }

  ghost function MembersText(members: Members): seq<byte>
    requires ValidMembers(members)
  {
    match members
    case LastMember(m) => MemberText(m) + [0x7D]
    case MoreMembers(m, more) => MemberText(m) + ([COMMA] + MembersText(more))
  }

  ghost function DocValue(d: Doc): Json
    requires ValidDoc(d)
  {
    match d
    case DNull => Null
    case DBool(b) => Bool(b)
    case DNum(n) => NumberValue(n)
    case DStr(s) => Str(CharsValue(s))
    case DNoItems(_) => Arr([])
    case DArr(items) => Arr(ItemsValue(items))
    case DNoMembers(_) => Obj([])
    case DObj(members) => Obj(MembersValue(members))
  }

  ghost function ItemValue(it: Item): Json
    requires ValidItem(it)
  {
    DocValue(it.value)
  }

  ghost function ItemsValue(items: Items): seq<Json>
    requires ValidItems(items)
  {
    [ItemValue(items.it)] + if items.LastItem? then [] else ItemsValue(items.items)
  }

  ghost function MemberValue(m: Member): (seq<Scalar>, Json)
    requires ValidMember(m)
  {
    (CharsValue(m.key), ItemValue(m.it))
  }

  ghost function MembersValue(members: Members): seq<(seq<Scalar>, Json)>
    requires ValidMembers(members)
  {
    [MemberValue(members.m)]
    + if members.LastMember? then [] else MembersValue(members.members)
  }

  // ---- white space ----

  lemma BlankIs(c: byte)
    ensures IsSpace(c) <==> c in BLANKS
    ensures IsSpace(c) ==> !NumberByte(c) && c != COMMA && c != COLON && c != 0x5D && c != 0x7D
  {
  }

  lemma {:induction false} SkipBlank(b: seq<byte>, p: nat, w: seq<byte>)
    requires At(b, p, w) && IsBlank(w) && (p + |w| == |b| || !IsSpace(b[p + |w|]))
    ensures SkipWs(b, p) == p + |w|
    decreases |w|
  {
    hide At;
    AtInside(b, p, w);
    if w != [] {
      AtByte(b, p, w, 0);
      assert w[0] in BLANKS;
      assert [w[0]] + w[1..] == w;
      AtParts(b, p, [w[0]], w[1..]);
      SkipBlank(b, p + 1, w[1..]);
    }
  }

  lemma {:induction false} BlankGiven(b: seq<byte>, p: nat) returns (w: seq<byte>)
    requires p <= |b|
    ensures IsBlank(w) && At(b, p, w) && SkipWs(b, p) == p + |w|
    ensures p + |w| == |b| || (p + |w| < |b| && !IsSpace(b[p + |w|]))
    decreases |b| - p
  {
    if p < |b| && IsSpace(b[p]) {
      var more := BlankGiven(b, p + 1);
      w := [b[p]] + more;
      assert b[p..p + |w|] == [b[p]] + b[p + 1..p + |w|];
    } else {
      w := [];
    }
  }

  lemma {:induction false} SkipTwice(b: seq<byte>, p: nat)
    requires p <= |b|
    ensures SkipWs(b, SkipWs(b, p)) == SkipWs(b, p)
    decreases |b| - p
  {
    if p < |b| && IsSpace(b[p]) {
      SkipTwice(b, p + 1);
    }
  }

  lemma ValueSkips(b: seq<byte>, p: nat)
    requires p <= |b|
    ensures ParseValue(b, SkipWs(b, p)) == ParseValue(b, p)
  {
    SkipTwice(b, p);
    hide ParseMembers, ParseElements, ParseChars, ParseNumber, Literal, SkipWs;
  }

  lemma ElementsSkip(b: seq<byte>, p: nat)
    requires p <= |b|
    ensures ParseElements(b, SkipWs(b, p)) == ParseElements(b, p)
  {
    hide ParseValue;
    ValueSkips(b, p);
  }

  lemma MemberSkips(b: seq<byte>, p: nat)
    requires p <= |b|
    ensures ParseMember(b, SkipWs(b, p)) == ParseMember(b, p)
  {
    hide ParseValue, SkipWs;
    SkipTwice(b, p);
  }

  lemma MembersSkip(b: seq<byte>, p: nat)
    requires p <= |b|
    ensures ParseMembers(b, SkipWs(b, p)) == ParseMembers(b, p)
  {
    hide ParseMember, SkipWs;
    MemberSkips(b, p);
  }

  // ---- every document parses ----

  lemma NumberFirst(n: Number)
    requires ValidNumber(n)
    ensures NumberText(n) != [] && NumberByte(NumberText(n)[0])
  {
    hide At, NumberText;
    FirstIs(n);
    NumberParts(n);
    if n.sign != [] {
      AtByte(NumberText(n), 0, n.sign, 0);
    } else if n.digits != [] {
      AtByte(NumberText(n), 0, n.digits, 0);
    } else {
      AtByte(NumberText(n), 0, FractionText(n.fraction), 0);
    }
  }

  /** Every document starts with a byte that tells its kind. */
  lemma FirstOf(d: Doc)
    requires ValidDoc(d)
    ensures DocText(d) != []
    ensures var c := DocText(d)[0];
            && !IsSpace(c) && c != 0x5D && c != 0x7D
            && (c == 0x7B <==> d.DObj? || d.DNoMembers?) && (c == 0x5B <==> d.DArr? || d.DNoItems?) && (c == QUOTE <==> d.DStr?)
            && (c == 0x74 <==> d == DBool(true)) && (c == 0x66 <==> d == DBool(false)) && (c == 0x6E <==> d.DNull?)
  {
    hide NumberText, CharsText, ItemsText, MembersText;
    if d.DNum? {
      NumberFirst(d.n);
    }
  }

  lemma StringParses(s: seq<Char>, b: seq<byte>, p: nat)
    requires ValidChars(s) && At(b, p, StringText(s))
    ensures ParseValue(b, p) == Ok((Str(CharsValue(s)), p + |StringText(s)|))
  {
    hide ParseChars, CharsText, CharsValue, At;
    AtInside(b, p, StringText(s));
    AtByte(b, p, StringText(s), 0);
    AtParts(b, p, [QUOTE], CharsText(s) + [QUOTE]);
    NoSpace(b, p);
    ParseAnyChars(s, b, p + 1);
  }

  lemma NumberParses(n: Number, b: seq<byte>, p: nat)
    requires ValidNumber(n) && At(b, p, NumberText(n)) && Ends(b, p + |NumberText(n)|)
    ensures ParseValue(b, p) == Ok((NumberValue(n), p + |NumberText(n)|))
  {
    hide At, NumberText, NumberEnd, NumberOf, NumberValue;
    AllNumberBytes(n);
    NumberIs(n);
    FirstOf(DNum(n));
    AtInside(b, p, NumberText(n));
    AtByte(b, p, NumberText(n), 0);
    NoSpace(b, p);
    NumberEndAt(b, p, NumberText(n));
    AtSlice(b, p, NumberText(n));
  }

  lemma AtSlice(b: seq<byte>, p: nat, x: seq<byte>)
    requires At(b, p, x)
    ensures p + |x| <= |b| && b[p..p + |x|] == x
  {
  }

  lemma AllNumberBytes(n: Number)
    requires ValidNumber(n)
    ensures forall i :: 0 <= i < |NumberText(n)| ==> NumberByte(NumberText(n)[i])
  {
    assert forall i :: 0 <= i < |FractionText(n.fraction)| ==> NumberByte(FractionText(n.fraction)[i]);
    assert forall i :: 0 <= i < |ExponentText(n.exponent)| ==> NumberByte(ExponentText(n.exponent)[i]);
    assert forall i :: 0 <= i < |n.sign + n.digits| ==> NumberByte((n.sign + n.digits)[i]);
    hide FractionText, ExponentText;
  }

  lemma LiteralParses(d: Doc, b: seq<byte>, p: nat)
    requires (d.DNull? || d.DBool?) && At(b, p, DocText(d))
    ensures ParseValue(b, p) == Ok((DocValue(d), p + |DocText(d)|))
  {
    AtByte(b, p, DocText(d), 0);
    NoSpace(b, p);
  }

  /** Nothing but white space between brackets. */
  lemma EmptyParses(d: Doc, b: seq<byte>, p: nat)
    requires (d.DNoItems? || d.DNoMembers?) && ValidDoc(d) && At(b, p, DocText(d))
    ensures ParseValue(b, p) == Ok((DocValue(d), p + |DocText(d)|))
  {
    hide At, SkipWs, ParseElements, ParseMembers;
    var close := if d.DNoItems? then 0x5D else 0x7D;
    AtInside(b, p, DocText(d));
    AtByte(b, p, DocText(d), 0);
    AtParts(b, p, [DocText(d)[0]], d.blank + [close]);
    AtParts(b, p + 1, d.blank, [close]);
    AtByte(b, p + 1 + |d.blank|, [close], 0);
    NoSpace(b, p);
    SkipBlank(b, p + 1, d.blank);
  }

  /** Every document parses where it stands, and the parser stops at its end. */
  lemma {:induction false} DocParses(d: Doc, b: seq<byte>, p: nat)
    requires ValidDoc(d) && At(b, p, DocText(d)) && (d.DNum? ==> Ends(b, p + |DocText(d)|))
    ensures ParseValue(b, p) == Ok((DocValue(d), p + |DocText(d)|))
    decreases d, 0
  {
    hide ParseValue, At, Ends, NumberText, NumberValue, StringText, ItemsText, MembersText;
    match d {
      case DNum(n) => NumberParses(n, b, p);
      case DStr(s) => StringParses(s, b, p);
      case DArr(items) => ArrParses(items, b, p);
      case DObj(members) => ObjParses(members, b, p);
      case DNoItems(_) => EmptyParses(d, b, p);
      case DNoMembers(_) => EmptyParses(d, b, p);
      case _ => LiteralParses(d, b, p);
    }
  }

  /** What follows an item or a key: something that is neither white space nor part of a number. */
  ghost predicate Stops(b: seq<byte>, p: nat) {
    p < |b| && !IsSpace(b[p]) && !NumberByte(b[p])
  }

  lemma EndsBefore(b: seq<byte>, p: nat, w: seq<byte>)
    requires At(b, p, w) && IsBlank(w) && Stops(b, p + |w|)
    ensures Ends(b, p) && SkipWs(b, p) == p + |w|
  {
    hide At;
    if w != [] {
      AtByte(b, p, w, 0);
      BlankIs(b[p]);
      AtInside(b, p, w);
    }
    SkipBlank(b, p, w);
  }

  lemma {:induction false} ItemParses(it: Item, b: seq<byte>, p: nat)
    requires ValidItem(it) && At(b, p, ItemText(it)) && Stops(b, p + |ItemText(it)|)
    ensures p <= |b| && ParseValue(b, p).Ok? && ParseValue(b, p).value.0 == ItemValue(it)
    ensures SkipWs(b, ParseValue(b, p).value.1) == p + |ItemText(it)|
    decreases it, 0
  {
    hide ParseValue, At, Ends, Stops, DocText, DocValue;
    var q := p + |it.before|;
    AtParts(b, p, it.before, DocText(it.value) + it.after);
    AtParts(b, q, DocText(it.value), it.after);
    AtInside(b, p, it.before);
    AtInside(b, q, DocText(it.value));
    FirstOf(it.value);
    AtByte(b, q, DocText(it.value), 0);
    SkipBlank(b, p, it.before);
    ValueSkips(b, p);
    EndsBefore(b, q + |DocText(it.value)|, it.after);
    DocParses(it.value, b, q);
  }

  /** The text of a list of items or members: one, and what follows it. */
  lemma TextAt(b: seq<byte>, p: nat, x: seq<byte>, rest: seq<byte>)
    requires At(b, p, x + rest) && rest != [] && (rest[0] == COMMA || rest[0] == 0x5D || rest[0] == 0x7D)
    ensures At(b, p, x) && p + |x| < |b| && Stops(b, p + |x|) && b[p + |x|] == rest[0]
    ensures At(b, p + |x| + 1, rest[1..])
  {
    hide At;
    AtInside(b, p, x + rest);
    AtParts(b, p, x, rest);
    AtByte(b, p + |x|, rest, 0);
    assert [rest[0]] + rest[1..] == rest;
    AtParts(b, p + |x|, [rest[0]], rest[1..]);
    BlankIs(rest[0]);
  }

  lemma {:induction false} ItemsParse(items: Items, b: seq<byte>, p: nat)
    requires ValidItems(items) && At(b, p, ItemsText(items))
    ensures p <= |b| && ParseElements(b, p) == Ok((ItemsValue(items), p + |ItemsText(items)|))
    decreases items, 0
  {
    hide ParseValue, ParseElements, At, ItemText, ItemValue, SkipWs, Stops;
    var rest := if items.LastItem? then [0x5D] else [COMMA] + ItemsText(items.items);
    TextAt(b, p, ItemText(items.it), rest);
    ItemParses(items.it, b, p);
    if items.LastItem? {
      LastElement(b, p);
      assert ItemsValue(items) == [ItemValue(items.it)];
    } else {
      assert rest[1..] == ItemsText(items.items);
      ItemsParse(items.items, b, p + |ItemText(items.it)| + 1);
      MoreElements(b, p, ItemsValue(items.items), p + |ItemsText(items)|);
    }
  }

  /** Behind an opening bracket and white space, an item starts with neither closing bracket. */
  lemma ItemStarts(it: Item, b: seq<byte>, p: nat)
    requires ValidItem(it) && At(b, p, ItemText(it))
    ensures p <= |b| && SkipWs(b, p) < |b| && b[SkipWs(b, p)] != 0x5D && b[SkipWs(b, p)] != 0x7D
  {
    hide At, DocText;
    AtParts(b, p, it.before, DocText(it.value) + it.after);
    AtParts(b, p + |it.before|, DocText(it.value), it.after);
    AtInside(b, p, it.before);
    AtInside(b, p + |it.before|, DocText(it.value));
    FirstOf(it.value);
    AtByte(b, p + |it.before|, DocText(it.value), 0);
    SkipBlank(b, p, it.before);
  }

  lemma ArrOpens(b: seq<byte>, p: nat, vs: seq<Json>, k: nat)
    requires p < |b| && b[p] == 0x5B && SkipWs(b, p + 1) < |b| && b[SkipWs(b, p + 1)] != 0x5D && ParseElements(b, p + 1) == Ok((vs, k))
    ensures ParseValue(b, p) == Ok((Arr(vs), k))
  {
    hide SkipWs, ParseElements, ParseMembers;
    NoSpace(b, p);
    ElementsSkip(b, p + 1);
  }

  lemma ObjOpens(b: seq<byte>, p: nat, ms: seq<(seq<Scalar>, Json)>, k: nat)
    requires p < |b| && b[p] == 0x7B && SkipWs(b, p + 1) < |b| && b[SkipWs(b, p + 1)] != 0x7D && ParseMembers(b, p + 1) == Ok((ms, k))
    ensures ParseValue(b, p) == Ok((Obj(ms), k))
  {
    hide SkipWs, ParseElements, ParseMembers;
    NoSpace(b, p);
    MembersSkip(b, p + 1);
  }

  lemma {:induction false} ArrParses(items: Items, b: seq<byte>, p: nat)
    requires ValidItems(items) && At(b, p, [0x5B] + ItemsText(items))
    ensures ParseValue(b, p) == Ok((Arr(ItemsValue(items)), p + 1 + |ItemsText(items)|))
    decreases items, 1
  {
    hide At, ItemText, ItemsValue, SkipWs, ParseValue, ParseElements;
    AtInside(b, p, [0x5B] + ItemsText(items));
    AtByte(b, p, [0x5B] + ItemsText(items), 0);
    AtParts(b, p, [0x5B], ItemsText(items));
    var rest := if items.LastItem? then [0x5D] else [COMMA] + ItemsText(items.items);
    AtParts(b, p + 1, ItemText(items.it), rest);
    ItemStarts(items.it, b, p + 1);
    ItemsParse(items, b, p + 1);
    ArrOpens(b, p, ItemsValue(items), p + 1 + |ItemsText(items)|);
  }

  lemma KeyAndValue(b: seq<byte>, p: nat, key: seq<Scalar>, q: nat)
    requires p <= |b| && ParseValue(b, SkipWs(b, p)) == Ok((Str(key), q)) && SkipWs(b, q) < |b| && b[SkipWs(b, q)] == COLON
    requires ParseValue(b, SkipWs(b, q) + 1).Ok?
    ensures var v := ParseValue(b, SkipWs(b, q) + 1).value; ParseMember(b, p) == Ok(((key, v.0), v.1))
  {
    hide ParseValue, SkipWs;
  }

  /** Where the parts of a member stand. */
  lemma MemberAt(m: Member, b: seq<byte>, p: nat)
    requires ValidMember(m) && At(b, p, MemberText(m))
    ensures var q := p + |m.before|;
            var r := q + |StringText(m.key)|;
            var t := r + |m.after|;
            && At(b, p, m.before) && At(b, q, StringText(m.key)) && At(b, r, m.after) && At(b, t + 1, ItemText(m.it))
            && t < |b| && b[t] == COLON && t + 1 + |ItemText(m.it)| == p + |MemberText(m)|
  {
    hide At, StringText, ItemText, ValidItem;
    var q := p + |m.before|;
    var r := q + |StringText(m.key)|;
    var t := r + |m.after|;
    AtParts(b, p, m.before, StringText(m.key) + (m.after + ([COLON] + ItemText(m.it))));
    AtParts(b, q, StringText(m.key), m.after + ([COLON] + ItemText(m.it)));
    AtParts(b, r, m.after, [COLON] + ItemText(m.it));
    AtParts(b, t, [COLON], ItemText(m.it));
    AtByte(b, t, [COLON], 0);
    AtInside(b, t, [COLON]);
  }

  lemma KeyParses(m: Member, b: seq<byte>, p: nat)
    requires ValidMember(m) && At(b, p, MemberText(m))
    ensures p <= |b| && SkipWs(b, p) == p + |m.before| < |b| && b[SkipWs(b, p)] == QUOTE
    ensures ParseValue(b, SkipWs(b, p)) == Ok((Str(CharsValue(m.key)), p + |m.before| + |StringText(m.key)|))
  {
    hide ParseValue, At, ValidItem, ItemText, MemberText, CharsValue;
    MemberAt(m, b, p);
    var q := p + |m.before|;
    AtInside(b, q, StringText(m.key));
    FirstOf(DStr(m.key));
    AtByte(b, q, StringText(m.key), 0);
    SkipBlank(b, p, m.before);
    StringParses(m.key, b, q);
  }

  lemma {:induction false} MemberParses(m: Member, b: seq<byte>, p: nat)
    requires ValidMember(m) && At(b, p, MemberText(m)) && Stops(b, p + |MemberText(m)|)
    ensures p <= |b| && ParseMember(b, p).Ok? && ParseMember(b, p).value.0 == MemberValue(m)
    ensures SkipWs(b, ParseMember(b, p).value.1) == p + |MemberText(m)|
    decreases m, 0
  {
    hide ParseValue, ParseMember, At, Stops, StringText, CharsValue, ItemText, ItemValue, MemberText, SkipWs, ValidItem;
    var r := p + |m.before| + |StringText(m.key)|;
    MemberAt(m, b, p);
    KeyParses(m, b, p);
    BlankIs(COLON);
    SkipBlank(b, r, m.after);
    ItemParses(m.it, b, r + |m.after| + 1);
    KeyAndValue(b, p, CharsValue(m.key), r);
  }

  lemma LastOfMembers(b: seq<byte>, p: nat)
    requires p <= |b| && ParseMember(b, p).Ok? && SkipWs(b, ParseMember(b, p).value.1) < |b|
    requires b[SkipWs(b, ParseMember(b, p).value.1)] == 0x7D
    ensures ParseMembers(b, p) == Ok(([ParseMember(b, p).value.0], SkipWs(b, ParseMember(b, p).value.1) + 1))
  {
    hide ParseMember, SkipWs;
  }

  lemma MoreOfMembers(b: seq<byte>, p: nat, ms: seq<(seq<Scalar>, Json)>, k: nat)
    requires p <= |b| && ParseMember(b, p).Ok? && SkipWs(b, ParseMember(b, p).value.1) < |b|
    requires b[SkipWs(b, ParseMember(b, p).value.1)] == COMMA && ParseMembers(b, SkipWs(b, ParseMember(b, p).value.1) + 1) == Ok((ms, k))
    ensures ParseMembers(b, p) == Ok(([ParseMember(b, p).value.0] + ms, k))
  {
    hide ParseMember, SkipWs;
  }

  lemma {:induction false} MembersParse(members: Members, b: seq<byte>, p: nat)
    requires ValidMembers(members) && At(b, p, MembersText(members))
    ensures p <= |b| && ParseMembers(b, p) == Ok((MembersValue(members), p + |MembersText(members)|))
    decreases members, 0
  {
    hide ParseMember, ParseMembers, At, MemberText, MemberValue, SkipWs, Stops;
    var rest := if members.LastMember? then [0x7D] else [COMMA] + MembersText(members.members);
    TextAt(b, p, MemberText(members.m), rest);
    MemberParses(members.m, b, p);
    if members.LastMember? {
      LastOfMembers(b, p);
      assert MembersValue(members) == [MemberValue(members.m)];
    } else {
      assert rest[1..] == MembersText(members.members);
      MembersParse(members.members, b, p + |MemberText(members.m)| + 1);
      MoreOfMembers(b, p, MembersValue(members.members), p + |MembersText(members)|);
    }
  }

  /** Behind an opening brace and white space stands a key. */
  lemma MembersStart(members: Members, b: seq<byte>, p: nat)
    requires ValidMembers(members) && At(b, p, MembersText(members))
    ensures p <= |b| && SkipWs(b, p) < |b| && b[SkipWs(b, p)] == QUOTE
  {
    hide At, MemberText, SkipWs, ParseValue;
    var rest := if members.LastMember? then [0x7D] else [COMMA] + MembersText(members.members);
    AtParts(b, p, MemberText(members.m), rest);
    KeyParses(members.m, b, p);
  }

  lemma {:induction false} ObjParses(members: Members, b: seq<byte>, p: nat)
    requires ValidMembers(members) && At(b, p, [0x7B] + MembersText(members))
    ensures ParseValue(b, p) == Ok((Obj(MembersValue(members)), p + 1 + |MembersText(members)|))
    decreases members, 1
  {
    hide At, MembersText, MembersValue, SkipWs, ParseValue, ParseMembers, ValidMembers;
    AtInside(b, p, [0x7B] + MembersText(members));
    AtByte(b, p, [0x7B] + MembersText(members), 0);
    AtParts(b, p, [0x7B], MembersText(members));
    MembersStart(members, b, p + 1);
    MembersParse(members, b, p + 1);
    ObjOpens(b, p, MembersValue(members), p + 1 + |MembersText(members)|);
  }

  // ---- nothing else parses ----

  lemma StringGiven(b: seq<byte>, p: nat) returns (s: seq<Char>)
    requires p < |b| && b[p] == QUOTE && ParseChars(b, p + 1).Ok?
    ensures ValidChars(s) && At(b, p, StringText(s)) && ParseValue(b, p) == Ok((Str(CharsValue(s)), p + |StringText(s)|))
  {
    hide ParseValue, ParseChars, CharsText, CharsValue, At, ValidChars;
    s := CharsGiven(b, p + 1);
    AtOne(b, p);
    AtJoin(b, p, [QUOTE], CharsText(s) + [QUOTE]);
    StringParses(s, b, p);
  }

  lemma NumberByGiven(b: seq<byte>, p: nat) returns (n: Number)
    requires p <= |b| && ParseNumber(b, p).Ok?
    ensures ValidNumber(n) && At(b, p, NumberText(n)) && p + |NumberText(n)| == ParseNumber(b, p).value.1
    ensures NumberValue(n) == ParseNumber(b, p).value.0
  {
    hide NumberOf, NumberText, NumberValue;
    var q := NumberEnd(b, p);
    n := NumberGiven(b[p..q]);
    NumberIs(n);
  }

  lemma LiteralGiven(b: seq<byte>, p: nat, d: Doc)
    requires (d.DNull? || d.DBool?) && p <= |b| && Literal(b, p, DocText(d), DocValue(d)).Ok?
    ensures At(b, p, DocText(d)) && Literal(b, p, DocText(d), DocValue(d)) == Ok((DocValue(d), p + |DocText(d)|))
  {
  }

  lemma EmptyGiven(b: seq<byte>, p: nat, close: byte) returns (w: seq<byte>)
    requires p < |b| && SkipWs(b, p + 1) < |b| && b[SkipWs(b, p + 1)] == close
    ensures IsBlank(w) && At(b, p, [b[p]] + (w + [close])) && p + |w| + 2 == SkipWs(b, p + 1) + 1
  {
    hide At, SkipWs;
    w := BlankGiven(b, p + 1);
    AtOne(b, p);
    AtOne(b, p + 1 + |w|);
    AtJoin(b, p + 1, w, [close]);
    AtJoin(b, p, [b[p]], w + [close]);
  }

  /** What was parsed from position p on is the value of a document, behind white space. */
  ghost predicate Gives(b: seq<byte>, p: nat, w: seq<byte>, d: Doc, r: (Json, nat)) {
    IsBlank(w) && ValidDoc(d) && At(b, p, w + DocText(d)) && r == (DocValue(d), p + |w| + |DocText(d)|)
  }

  lemma {:induction false} DocGiven(b: seq<byte>, p: nat) returns (w: seq<byte>, d: Doc)
    requires p <= |b| && ParseValue(b, p).Ok?
    ensures Gives(b, p, w, d, ParseValue(b, p).value)
    decreases |b| - p, 1
  {
    hide DocText, DocValue, ValidDoc, At, ParseValue;
    w := BlankGiven(b, p);
    var q := p + |w|;
    ValueSkips(b, p);
    d := BareGiven(b, q);
    AtJoin(b, p, w, DocText(d));
  }

  lemma {:induction false} BareGiven(b: seq<byte>, q: nat) returns (d: Doc)
    requires q <= |b| && ParseValue(b, q).Ok? && (q == |b| || !IsSpace(b[q]))
    ensures ValidDoc(d) && At(b, q, DocText(d)) && ParseValue(b, q).value == (DocValue(d), q + |DocText(d)|)
    decreases |b| - q, 0
  {
    hide At, ParseChars, ParseElements, ParseMembers, ParseNumber, Literal, SkipWs, ItemsText, MembersText, NumberText, NumberValue, StringText, CharsValue;
    NoSpace(b, q);
    var c := b[q];
    if c == 0x7B && b[SkipWs(b, q + 1)] == 0x7D {
      var blank := EmptyGiven(b, q, 0x7D);
      d := DNoMembers(blank);
    } else if c == 0x5B && b[SkipWs(b, q + 1)] == 0x5D {
      var blank := EmptyGiven(b, q, 0x5D);
      d := DNoItems(blank);
    } else if c == 0x7B {
      MembersSkip(b, q + 1);
      var members := MembersGiven(b, q + 1);
      AtOne(b, q);
      AtJoin(b, q, [0x7B], MembersText(members));
      d := DObj(members);
    } else if c == 0x5B {
      ElementsSkip(b, q + 1);
      var items := ItemsGiven(b, q + 1);
      AtOne(b, q);
      AtJoin(b, q, [0x5B], ItemsText(items));
      d := DArr(items);
    } else if c == QUOTE {
      var s := StringGiven(b, q);
      d := DStr(s);
    } else if c == 0x74 {
      d := DBool(true);
      LiteralGiven(b, q, d);
    } else if c == 0x66 {
      d := DBool(false);
      LiteralGiven(b, q, d);
    } else if c == 0x6E {
      d := DNull;
      LiteralGiven(b, q, d);
    } else {
      var n := NumberByGiven(b, q);
      d := DNum(n);
    }
  }

  lemma {:induction false} ItemGiven(b: seq<byte>, p: nat) returns (it: Item)
    requires p <= |b| && ParseValue(b, p).Ok?
    ensures ValidItem(it) && At(b, p, ItemText(it)) && ItemValue(it) == ParseValue(b, p).value.0
    ensures SkipWs(b, ParseValue(b, p).value.1) == p + |ItemText(it)|
    decreases |b| - p, 2
  {
    hide DocText, DocValue, At, ParseValue, SkipWs;
    var w, d := DocGiven(b, p);
    var q := ParseValue(b, p).value.1;
    var after := BlankGiven(b, q);
    it := Item(w, d, after);
    AtParts(b, p, w, DocText(d));
    AtJoin(b, p + |w|, DocText(d), after);
    AtJoin(b, p, w, DocText(d) + after);
  }

  lemma {:induction false} ItemsGiven(b: seq<byte>, p: nat) returns (items: Items)
    requires p <= |b| && ParseElements(b, p).Ok?
    ensures ValidItems(items) && At(b, p, ItemsText(items)) && ParseElements(b, p) == Ok((ItemsValue(items), p + |ItemsText(items)|))
    decreases |b| - p, 3
  {
    hide At, ParseValue, ItemText, ItemValue, SkipWs;
    var it := ItemGiven(b, p);
    var q := p + |ItemText(it)|;
    AtOne(b, q);
    if b[q] == 0x5D {
      items := LastItem(it);
      AtJoin(b, p, ItemText(it), [0x5D]);
    } else {
      var more := ItemsGiven(b, q + 1);
      items := MoreItems(it, more);
      AtJoin(b, q, [COMMA], ItemsText(more));
      AtJoin(b, p, ItemText(it), [COMMA] + ItemsText(more));
    }
    hide ParseElements, ItemsText;
    ItemsParse(items, b, p);
  }

  lemma {:induction false} MemberGiven(b: seq<byte>, p: nat) returns (m: Member)
    requires p <= |b| && ParseMember(b, p).Ok?
    ensures ValidMember(m) && At(b, p, MemberText(m)) && MemberValue(m) == ParseMember(b, p).value.0
    ensures SkipWs(b, ParseMember(b, p).value.1) == p + |MemberText(m)|
    decreases |b| - p, 3
  {
    hide DocText, DocValue, At, ParseValue, SkipWs, StringText, CharsValue, ItemText, ItemValue;
    ValueSkips(b, p);
    var w, d := DocGiven(b, p);
    KeyIsString(d);
    var q := ParseValue(b, p).value.1;
    var after := BlankGiven(b, q);
    var it := ItemGiven(b, q + |after| + 1);
    m := Member(w, d.s, after, it);
    AtOne(b, q + |after|);
    AtParts(b, p, w, StringText(d.s));
    AtJoin(b, q + |after|, [COLON], ItemText(it));
    AtJoin(b, q, after, [COLON] + ItemText(it));
    AtJoin(b, p + |w|, StringText(d.s), after + ([COLON] + ItemText(it)));
    AtJoin(b, p, w, StringText(d.s) + (after + ([COLON] + ItemText(it))));
  }

  lemma KeyIsString(d: Doc)
    requires ValidDoc(d) && DocValue(d).Str?
    ensures d.DStr? && ValidChars(d.s) && DocText(d) == StringText(d.s) && DocValue(d) == Str(CharsValue(d.s))
  {
    hide NumberText, StringText, CharsValue, ItemsText, MembersText, ItemsValue, MembersValue;
  }

  lemma {:induction false} MembersGiven(b: seq<byte>, p: nat) returns (members: Members)
    requires p <= |b| && ParseMembers(b, p).Ok?
    ensures ValidMembers(members) && At(b, p, MembersText(members))
    ensures ParseMembers(b, p) == Ok((MembersValue(members), p + |MembersText(members)|))
    decreases |b| - p, 4
  {
    hide At, ParseMember, MemberText, MemberValue, SkipWs;
    var m := MemberGiven(b, p);
    var q := p + |MemberText(m)|;
    AtOne(b, q);
    if b[q] == 0x7D {
      members := LastMember(m);
      AtJoin(b, p, MemberText(m), [0x7D]);
    } else {
      var more := MembersGiven(b, q + 1);
      members := MoreMembers(m, more);
      AtJoin(b, q, [COMMA], MembersText(more));
      AtJoin(b, p, MemberText(m), [COMMA] + MembersText(more));
    }
    hide ParseMembers, MembersText;
    MembersParse(members, b, p);
  }

  // ---- exactly the documents ----

  /** The text is white space, a document and white space, and `j` is the document's value. */
  ghost predicate Writes(text: seq<byte>, j: Json) {
    exists it :: ValidItem(it) && ItemText(it) == text && ItemValue(it) == j
  }

  /** Parsing accepts exactly the texts of documents, and gives their values. */
  lemma ParseIff(b: seq<byte>, j: Json)
    ensures Parse(b) == Ok(j) <==> Writes(b, j)
  {
    hide ParseValue, DocText, DocValue, ValidDoc, At;
    if Parse(b) == Ok(j) {
      var it := ItemGiven(b, 0);
      AtSlice(b, 0, ItemText(it));
      assert ItemText(it) == b;
    }
    if Writes(b, j) {
      var it :| ValidItem(it) && ItemText(it) == b && ItemValue(it) == j;
      WholeParses(it);
    }
  }

  lemma WholeParses(it: Item)
    requires ValidItem(it)
    ensures Parse(ItemText(it)) == Ok(ItemValue(it))
  {
    hide ParseValue, DocText, DocValue, At, SkipWs;
    var b := ItemText(it);
    var q, r := |it.before|, |it.before| + |DocText(it.value)|;
    AtWhole(b);
    AtParts(b, 0, it.before, DocText(it.value) + it.after);
    AtParts(b, q, DocText(it.value), it.after);
    FirstOf(it.value);
    AtByte(b, q, DocText(it.value), 0);
    SkipBlank(b, 0, it.before);
    ValueSkips(b, 0);
    if it.after != [] {
      AtByte(b, r, it.after, 0);
      BlankIs(it.after[0]);
    }
    DocParses(it.value, b, q);
    SkipBlank(b, r, it.after);
  }
}
