/** JSON values, printed and parsed. */
module Json {
  import opened Wrappers
  import opened Bytes
  import opened Unicode
  import opened JsonText

  datatype Json =
    | Null
    | Bool(b: bool)
    | Num(n: int)
    | Float(text: seq<byte>)   // a number that is not written as an integer below the limit, kept as it was written
    | Str(s: seq<Scalar>)
    | Arr(a: seq<Json>)
    | Obj(o: seq<(seq<Scalar>, Json)>)

  const COMMA: byte := 0x2C
  const COLON: byte := 0x3A

  // ---- printing ----

  function Escaped(s: seq<Scalar>): seq<byte> {
    if s == [] then [] else Escape(s[0]) + Escaped(s[1..])
  }

  function Quoted(s: seq<Scalar>): seq<byte> {
    [QUOTE] + (Escaped(s) + [QUOTE])
  }

  /** How many children a value has. */
  function Size(j: Json): nat {
    match j
    case Arr(a) => |a|
    case Obj(o) => |o|
    case _ => 0
  }

  function Render(j: Json): seq<byte>
    decreases j, Size(j) + 1
  {
    match j
    case Null => [0x6E, 0x75, 0x6C, 0x6C]
    case Bool(b) => if b then [0x74, 0x72, 0x75, 0x65] else [0x66, 0x61, 0x6C, 0x73, 0x65]
    case Num(n) => Integer(n)
    case Float(text) => text
    case Str(s) => Quoted(s)
    case Arr(a) => [0x5B] + (Children(j, 0) + [0x5D])
    case Obj(o) => [0x7B] + (Children(j, 0) + [0x7D])
  }

  function Separator(i: nat): seq<byte> {
    if i > 0 then [COMMA] else []
  }

  /** The children from number `i` on, each after the first with a comma before it. */
  function Children(j: Json, i: nat): seq<byte>
    requires i <= Size(j)
    decreases j, Size(j) - i
  {
    if i == Size(j) then [] else Separator(i) + (Child(j, i) + Children(j, i + 1))
  }

  function Child(j: Json, i: nat): seq<byte>
    requires i < Size(j)
    decreases j, 0
  {
    match j
    case Arr(a) => Render(a[i])
    case Obj(o) => Quoted(o[i].0) + ([COLON] + Render(o[i].1))
  }

  // ---- parsing ----

  predicate IsSpace(c: byte) {
    c == 0x20 || c == 0x09 || c == 0x0A || c == 0x0D
  }

  function SkipWs(b: seq<byte>, p: nat): (q: nat)
    requires p <= |b|
    ensures p <= q <= |b|
    decreases |b| - p
  {
    if p < |b| && IsSpace(b[p]) then SkipWs(b, p + 1) else p
  }

  /** The rest of a string, up to and over the closing quote. */
  function ParseChars(b: seq<byte>, p: nat): (r: Result<(seq<Scalar>, nat), Error>)
    requires p <= |b|
    ensures r.Ok? ==> p < r.value.1 <= |b|
    decreases |b| - p
  {
    if p == |b| then Err(Unterminated)
    else if b[p] == QUOTE then Ok(([], p + 1))
    else
      match ParseChar(b, p)
      case Err(e) => Err(e)
      case Ok((c, q)) =>
        match ParseChars(b, q)
        case Err(e) => Err(e)
        case Ok((s, r)) => Ok(([c] + s, r))
  }

  function Literal(b: seq<byte>, p: nat, text: seq<byte>, j: Json): (r: Result<(Json, nat), Error>)
    requires p <= |b| && text != []
    ensures r.Ok? ==> p < r.value.1 <= |b|
  {
    if p + |text| <= |b| && b[p..p + |text|] == text then Ok((j, p + |text|)) else Err(BadLiteral)
  }

  function NumberOf(text: seq<byte>): Option<Json> {
    if IntegerOf(text).Some? then Some(Num(IntegerOf(text).value)) else if IsFloat(text) then Some(Float(text)) else None
  }

  function ParseNumber(b: seq<byte>, p: nat): (r: Result<(Json, nat), Error>)
    requires p <= |b|
    ensures r.Ok? ==> p < r.value.1 <= |b|
  {
    var q := NumberEnd(b, p);
    match NumberOf(b[p..q])
    case None => Err(BadNumber)
    case Some(j) => Ok((j, q))
  }

  function ParseValue(b: seq<byte>, p: nat): (r: Result<(Json, nat), Error>)
    requires p <= |b|
    ensures r.Ok? ==> p < r.value.1 <= |b|
    decreases |b| - p, 0
  {
    var q := SkipWs(b, p);
    if q == |b| then Err(Eof) else
    var c := b[q];
    if c == 0x7B then
      var i := SkipWs(b, q + 1);
      if i < |b| && b[i] == 0x7D then Ok((Obj([]), i + 1)) else
      match ParseMembers(b, i)
      case Err(e) => Err(e)
      case Ok((o, k)) => Ok((Obj(o), k))
    else if c == 0x5B then
      var i := SkipWs(b, q + 1);
      if i < |b| && b[i] == 0x5D then Ok((Arr([]), i + 1)) else
      match ParseElements(b, i)
      case Err(e) => Err(e)
      case Ok((a, k)) => Ok((Arr(a), k))
    else if c == QUOTE then
      match ParseChars(b, q + 1)
      case Err(e) => Err(e)
      case Ok((s, k)) => Ok((Str(s), k))
    else if c == 0x74 then Literal(b, q, [0x74, 0x72, 0x75, 0x65], Bool(true))
    else if c == 0x66 then Literal(b, q, [0x66, 0x61, 0x6C, 0x73, 0x65], Bool(false))
    else if c == 0x6E then Literal(b, q, [0x6E, 0x75, 0x6C, 0x6C], Null)
    else ParseNumber(b, q)
  }

  /** One or more elements, and the bracket that closes them. */
  function ParseElements(b: seq<byte>, p: nat): (r: Result<(seq<Json>, nat), Error>)
    requires p <= |b|
    ensures r.Ok? ==> p < r.value.1 <= |b|
    decreases |b| - p, 1
  {
    match ParseValue(b, p)
    case Err(e) => Err(e)
    case Ok((v, q)) =>
      var i := SkipWs(b, q);
      if i == |b| then Err(Expected)
      else if b[i] == 0x5D then Ok(([v], i + 1))
      else if b[i] != COMMA then Err(Expected)
      else
        match ParseElements(b, i + 1)
        case Err(e) => Err(e)
        case Ok((vs, k)) => Ok(([v] + vs, k))
  }

  function ParseMember(b: seq<byte>, p: nat): (r: Result<((seq<Scalar>, Json), nat), Error>)
    requires p <= |b|
    ensures r.Ok? ==> p < r.value.1 <= |b|
    decreases |b| - p, 1
  {
    match ParseValue(b, SkipWs(b, p))
    case Err(e) => Err(e)
    case Ok((key, q)) =>
      if !key.Str? then Err(BadKey) else
      var i := SkipWs(b, q);
      if i == |b| || b[i] != COLON then Err(Expected) else
      match ParseValue(b, i + 1)
      case Err(e) => Err(e)
      case Ok((v, k)) => Ok(((key.s, v), k))
  }

  function ParseMembers(b: seq<byte>, p: nat): (r: Result<(seq<(seq<Scalar>, Json)>, nat), Error>)
    requires p <= |b|
    ensures r.Ok? ==> p < r.value.1 <= |b|
    decreases |b| - p, 2
  {
    match ParseMember(b, p)
    case Err(e) => Err(e)
    case Ok((m, q)) =>
      var i := SkipWs(b, q);
      if i == |b| then Err(Expected)
      else if b[i] == 0x7D then Ok(([m], i + 1))
      else if b[i] != COMMA then Err(Expected)
      else
        match ParseMembers(b, i + 1)
        case Err(e) => Err(e)
        case Ok((ms, k)) => Ok(([m] + ms, k))
  }

  function Parse(b: seq<byte>): Result<Json, Error> {
    match ParseValue(b, 0)
    case Err(e) => Err(e)
    case Ok((v, p)) => if SkipWs(b, p) != |b| then Err(Trailing) else Ok(v)
  }

  // ---- the round trip ----

  /** Every number is an integer the printer writes as one. */
  ghost predicate Printable(j: Json) {
    match j
    case Num(n) => -LIMIT < n < LIMIT
    case Float(_) => false
    case Arr(a) => forall i :: 0 <= i < |a| ==> Printable(a[i])
    case Obj(o) => forall i :: 0 <= i < |o| ==> Printable(o[i].1)
    case _ => true
  }

  /** A value ends here: what follows does not continue a number. */
  ghost predicate Ends(b: seq<byte>, p: nat) {
    p == |b| || (p < |b| && !NumberByte(b[p]))
  }

  lemma {:induction false} ParseCharsOf(s: seq<Scalar>, b: seq<byte>, p: nat)
    requires At(b, p, Escaped(s) + [QUOTE])
    ensures ParseChars(b, p) == Ok((s, p + |Escaped(s)| + 1))
    decreases |s|
  {
    hide At, Escape, ParseChar;
    if s == [] {
      assert Escaped(s) + [QUOTE] == [QUOTE];
      AtByte(b, p, [QUOTE], 0);
      AtInside(b, p, [QUOTE]);
    } else {
      assert Escaped(s) + [QUOTE] == Escape(s[0]) + (Escaped(s[1..]) + [QUOTE]);
      AtParts(b, p, Escape(s[0]), Escaped(s[1..]) + [QUOTE]);
      AtInside(b, p, Escape(s[0]));
      ParseCharOf(s[0], b, p);
      ParseCharsOf(s[1..], b, p + |Escape(s[0])|);
      assert [s[0]] + s[1..] == s;
    }
  }

  lemma AtInside(b: seq<byte>, p: nat, x: seq<byte>)
    requires At(b, p, x)
    ensures p + |x| <= |b|
  {
  }

  /** The printer starts every value with a byte that tells its kind. */
  lemma FirstByte(j: Json)
    requires !j.Float?
    ensures Render(j) != []
    ensures var c := Render(j)[0];
            && !IsSpace(c) && c != 0x5D && c != 0x7D
            && (c == 0x7B <==> j.Obj?) && (c == 0x5B <==> j.Arr?) && (c == QUOTE <==> j.Str?)
            && (c == 0x74 <==> j == Bool(true)) && (c == 0x66 <==> j == Bool(false)) && (c == 0x6E <==> j.Null?)
  {
    hide Digits;
    match j {
      case Num(n) => assert NumberByte(Integer(n)[0]);
      case _ =>
    }
  }

  lemma NoSpace(b: seq<byte>, p: nat)
    requires p == |b| || (p < |b| && !IsSpace(b[p]))
    ensures SkipWs(b, p) == p
  {
  }

  /** What follows a child: a comma and the next child, or the closing bracket. */
  function After(j: Json, i: nat, close: byte): seq<byte>
    requires i <= Size(j)
  {
    Children(j, i) + [close]
  }

  lemma AfterChild(j: Json, i: nat, close: byte)
    requires 0 < i <= Size(j)
    ensures After(j, i, close) == if i == Size(j) then [close] else [COMMA] + (Child(j, i) + After(j, i + 1, close))
  {
    hide Child;
    if i < Size(j) {
      assert Children(j, i) + [close] == [COMMA] + (Child(j, i) + (Children(j, i + 1) + [close]));
    } else {
      assert [] + [close] == [close];
    }
  }

  lemma AfterStart(j: Json, close: byte)
    ensures After(j, 0, close) == if Size(j) == 0 then [close] else Child(j, 0) + After(j, 1, close)
  {
    hide Child;
    if Size(j) > 0 {
      assert [] + (Child(j, 0) + Children(j, 1)) == Child(j, 0) + Children(j, 1);
      assert Child(j, 0) + Children(j, 1) + [close] == Child(j, 0) + (Children(j, 1) + [close]);
    } else {
      assert [] + [close] == [close];
    }
  }

  /** The byte after a child is a comma or the closing bracket. */
  lemma NextByte(j: Json, i: nat, close: byte, b: seq<byte>, p: nat)
    requires 0 < i <= Size(j) && At(b, p, After(j, i, close)) && !NumberByte(close) && !IsSpace(close)
    ensures p < |b| && b[p] == (if i == Size(j) then close else COMMA) && Ends(b, p) && SkipWs(b, p) == p
    ensures i < Size(j) ==> At(b, p + 1, Child(j, i) + After(j, i + 1, close))
  {
    hide After, Child, At;
    AfterChild(j, i, close);
    AtInside(b, p, After(j, i, close));
    AtByte(b, p, After(j, i, close), 0);
    NoSpace(b, p);
    if i < Size(j) {
      AtParts(b, p, [COMMA], Child(j, i) + After(j, i + 1, close));
    }
  }

  /** A string, read back. */
  lemma ParseQuoted(s: seq<Scalar>, b: seq<byte>, p: nat)
    requires At(b, p, Quoted(s))
    ensures ParseValue(b, p) == Ok((Str(s), p + |Quoted(s)|))
  {
    hide ParseChars, Escaped, At;
    AtInside(b, p, Quoted(s));
    AtByte(b, p, Quoted(s), 0);
    AtParts(b, p, [QUOTE], Escaped(s) + [QUOTE]);
    NoSpace(b, p);
    ParseCharsOf(s, b, p + 1);
  }

  lemma ParseLiteral(j: Json, b: seq<byte>, p: nat)
    requires (j.Null? || j.Bool?) && At(b, p, Render(j))
    ensures ParseValue(b, p) == Ok((j, p + |Render(j)|))
  {
    AtByte(b, p, Render(j), 0);
    NoSpace(b, p);
  }

  lemma ParseNum(n: int, b: seq<byte>, p: nat)
    requires -LIMIT < n < LIMIT && At(b, p, Integer(n)) && Ends(b, p + |Integer(n)|)
    ensures ParseValue(b, p) == Ok((Num(n), p + |Integer(n)|))
  {
    hide Integer, NumberEnd, IntegerOf;
    FirstByte(Num(n));
    AtByte(b, p, Integer(n), 0);
    NoSpace(b, p);
    NumberEndAt(b, p, Integer(n));
    IntegerOfInteger(n);
  }

  /** Printing a printable value anywhere in a text and parsing there gives the value back and stops at its end. */
  lemma {:induction false} ParseValueOf(j: Json, b: seq<byte>, p: nat)
    requires Printable(j) && At(b, p, Render(j)) && Ends(b, p + |Render(j)|)
    ensures ParseValue(b, p) == Ok((j, p + |Render(j)|))
    decreases j, Size(j) + 2
  {
    hide ParseValue, At, Ends, Children, Quoted, Integer;
    match j {
      case Num(n) => ParseNum(n, b, p);
      case Str(s) => ParseQuoted(s, b, p);
      case Arr(a) => ParseArr(j, b, p);
      case Obj(o) => ParseObj(j, b, p);
      case _ => ParseLiteral(j, b, p);
    }
  }

  lemma {:induction false} ParseArr(j: Json, b: seq<byte>, p: nat)
    requires j.Arr? && Printable(j) && At(b, p, Render(j))
    ensures ParseValue(b, p) == Ok((j, p + |Render(j)|))
    decreases j, Size(j) + 1
  {
    hide Children, Child, At, ParseElements;
    assert Render(j) == [0x5B] + After(j, 0, 0x5D);
    AtInside(b, p, Render(j));
    AtByte(b, p, Render(j), 0);
    AtParts(b, p, [0x5B], After(j, 0, 0x5D));
    NoSpace(b, p);
    AfterStart(j, 0x5D);
    AtByte(b, p + 1, After(j, 0, 0x5D), 0);
    if j.a == [] {
      NoSpace(b, p + 1);
    } else {
      FirstChild(j);
      NoSpace(b, p + 1);
      ElementsOf(j, 0, b, p + 1);
    }
  }

  lemma FirstChild(j: Json)
    requires Size(j) > 0 && Printable(j)
    ensures Child(j, 0) != [] && !IsSpace(Child(j, 0)[0]) && Child(j, 0)[0] != 0x5D && Child(j, 0)[0] != 0x7D
  {
    hide Render;
    match j {
      case Arr(a) => FirstByte(a[0]);
      case Obj(o) =>
    }
  }

  lemma LastElement(b: seq<byte>, p: nat)
    requires p <= |b| && ParseValue(b, p).Ok? && SkipWs(b, ParseValue(b, p).value.1) < |b|
    requires b[SkipWs(b, ParseValue(b, p).value.1)] == 0x5D
    ensures ParseElements(b, p) == Ok(([ParseValue(b, p).value.0], SkipWs(b, ParseValue(b, p).value.1) + 1))
  {
    hide ParseValue, SkipWs;
  }

  lemma MoreElements(b: seq<byte>, p: nat, vs: seq<Json>, k: nat)
    requires p <= |b| && ParseValue(b, p).Ok? && SkipWs(b, ParseValue(b, p).value.1) < |b|
    requires b[SkipWs(b, ParseValue(b, p).value.1)] == COMMA && ParseElements(b, SkipWs(b, ParseValue(b, p).value.1) + 1) == Ok((vs, k))
    ensures ParseElements(b, p) == Ok(([ParseValue(b, p).value.0] + vs, k))
  {
    hide ParseValue, SkipWs;
  }

  lemma {:induction false} ElementsOf(j: Json, i: nat, b: seq<byte>, p: nat)
    requires j.Arr? && Printable(j) && i < |j.a| && At(b, p, Child(j, i) + After(j, i + 1, 0x5D))
    ensures ParseElements(b, p) == Ok((j.a[i..], p + |Child(j, i) + After(j, i + 1, 0x5D)|))
    decreases j, Size(j) - i
  {
    hide Children, Child, After, At, ParseValue, ParseElements, Render, SkipWs, Ends;
    var c := Child(j, i);
    ElementText(j, i);
    AtInside(b, p, c + After(j, i + 1, 0x5D));
    AtParts(b, p, c, After(j, i + 1, 0x5D));
    NextByte(j, i + 1, 0x5D, b, p + |c|);
    ParseValueOf(j.a[i], b, p);
    AfterChild(j, i + 1, 0x5D);
    if i + 1 < |j.a| {
      ElementsOf(j, i + 1, b, p + |c| + 1);
      MoreElements(b, p, j.a[i + 1..], p + |c + After(j, i + 1, 0x5D)|);
      assert j.a[i..] == [j.a[i]] + j.a[i + 1..];
    } else {
      LastElement(b, p);
      assert j.a[i..] == [j.a[i]];
    }
  }

  lemma ElementText(j: Json, i: nat)
    requires j.Arr? && i < |j.a|
    ensures Child(j, i) == Render(j.a[i])
  {
  }

  lemma {:induction false} ParseObj(j: Json, b: seq<byte>, p: nat)
    requires j.Obj? && Printable(j) && At(b, p, Render(j))
    ensures ParseValue(b, p) == Ok((j, p + |Render(j)|))
    decreases j, Size(j) + 1
  {
    hide Children, Child, At, ParseMembers;
    assert Render(j) == [0x7B] + After(j, 0, 0x7D);
    AtInside(b, p, Render(j));
    AtByte(b, p, Render(j), 0);
    AtParts(b, p, [0x7B], After(j, 0, 0x7D));
    NoSpace(b, p);
    AfterStart(j, 0x7D);
    AtByte(b, p + 1, After(j, 0, 0x7D), 0);
    if j.o == [] {
      NoSpace(b, p + 1);
    } else {
      FirstChild(j);
      NoSpace(b, p + 1);
      MembersOf(j, 0, b, p + 1);
    }
  }

  lemma {:induction false} MemberOf(j: Json, i: nat, b: seq<byte>, p: nat)
    requires j.Obj? && Printable(j) && i < |j.o| && At(b, p, Child(j, i)) && Ends(b, p + |Child(j, i)|)
    ensures ParseMember(b, p) == Ok((j.o[i], p + |Child(j, i)|))
    decreases j, 0
  {
    hide At, ParseValue, Render, Escaped;
    var (k, v) := j.o[i];
    AtInside(b, p, Child(j, i));
    AtParts(b, p, Quoted(k), [COLON] + Render(v));
    AtByte(b, p, Quoted(k), 0);
    NoSpace(b, p);
    ParseQuoted(k, b, p);
    var q := p + |Quoted(k)|;
    AtByte(b, q, [COLON] + Render(v), 0);
    AtParts(b, q, [COLON], Render(v));
    NoSpace(b, q);
    ParseValueOf(v, b, q + 1);
  }

  lemma {:induction false} MembersOf(j: Json, i: nat, b: seq<byte>, p: nat)
    requires j.Obj? && Printable(j) && i < |j.o| && At(b, p, Child(j, i) + After(j, i + 1, 0x7D))
    ensures ParseMembers(b, p) == Ok((j.o[i..], p + |Child(j, i) + After(j, i + 1, 0x7D)|))
    decreases j, Size(j) - i
  {
    hide Children, Child, After, At, ParseMember, ParseValue, Render, SkipWs, Ends, Printable;
    AtInside(b, p, Child(j, i) + After(j, i + 1, 0x7D));
    AtParts(b, p, Child(j, i), After(j, i + 1, 0x7D));
    var q := p + |Child(j, i)|;
    NextByte(j, i + 1, 0x7D, b, q);
    MemberOf(j, i, b, p);
    AfterChild(j, i + 1, 0x7D);
    if i + 1 < |j.o| {
      MembersOf(j, i + 1, b, q + 1);
      assert j.o[i..] == [j.o[i]] + j.o[i + 1..];
    } else {
      assert j.o[i..] == [j.o[i]];
    }
  }

  /** Parsing what the printer printed gives the value back. */
  lemma ParseOfRender(j: Json)
    requires Printable(j)
    ensures Parse(Render(j)) == Ok(j)
  {
    hide ParseValue, Render;
    var b := Render(j);
    assert b[0..|b|] == b;
    ParseValueOf(j, b, 0);
    NoSpace(b, |b|);
  }
}
