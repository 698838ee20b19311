/** The loops of the printer that appends to a string, and of the parser that moves a position. */
module JsonLoops {
  import opened Wrappers
  import opened Bytes
  import opened Unicode
  import opened JsonText
  import opened Json

  method WriteString(s: seq<Scalar>, out: seq<byte>) returns (r: seq<byte>)
    ensures r == out + Quoted(s)
  {
    r := out + [QUOTE];
    for i := 0 to |s|
      invariant r + Escaped(s[i..]) == out + [QUOTE] + Escaped(s)
    {
      assert s[i..][1..] == s[i + 1..];
      assert r + (Escape(s[i]) + Escaped(s[i + 1..])) == (r + Escape(s[i])) + Escaped(s[i + 1..]);
      r := r + Escape(s[i]);
    }
    assert s[|s|..] == [];
    assert r == out + [QUOTE] + Escaped(s);
    r := r + [QUOTE];
    assert r == out + ([QUOTE] + (Escaped(s) + [QUOTE]));
  }

  lemma ChildWritten(j: Json, i: nat, before: seq<byte>)
    requires i < Size(j)
    ensures before + Children(j, i) == before + Separator(i) + Child(j, i) + Children(j, i + 1)
  {
    hide Child;
    assert before + (Separator(i) + (Child(j, i) + Children(j, i + 1))) == before + Separator(i) + Child(j, i) + Children(j, i + 1);
  }

  lemma NoChildren(j: Json, out: seq<byte>)
    ensures out + Children(j, Size(j)) == out
  {
  }

  /** `Json::write`. */
  method Write(j: Json, out: seq<byte>) returns (r: seq<byte>)
    ensures r == out + Render(j)
    decreases j, 1
  {
    match j {
      case Null => r := out + [0x6E, 0x75, 0x6C, 0x6C];
      case Bool(b) => r := out + (if b then [0x74, 0x72, 0x75, 0x65] else [0x66, 0x61, 0x6C, 0x73, 0x65]);
      case Num(n) => r := out + Integer(n);
      case Float(text) => r := out + text;
      case Str(s) => r := WriteString(s, out);
      case Arr(a) =>
        r := WriteChildren(j, out + [0x5B]);
        r := r + [0x5D];
        assert r == out + ([0x5B] + (Children(j, 0) + [0x5D]));
      case Obj(o) =>
        r := WriteChildren(j, out + [0x7B]);
        r := r + [0x7D];
        assert r == out + ([0x7B] + (Children(j, 0) + [0x7D]));
    }
  }

  method WriteChildren(j: Json, out: seq<byte>) returns (r: seq<byte>)
    requires j.Arr? || j.Obj?
    ensures r == out + Children(j, 0)
    decreases j, 0
  {
    hide Children, Render, Quoted;
    r := out;
    for i := 0 to Size(j)
      invariant r + Children(j, i) == out + Children(j, 0)
    {
      ChildWritten(j, i, r);
      ghost var before := r;
      if i > 0 {
        r := r + [COMMA];
      } else {
        assert r + [] == r;
      }
      ghost var start := r;
      match j {
        case Arr(a) =>
          r := Write(a[i], r);
        case Obj(o) =>
          r := WriteString(o[i].0, r);
          r := r + [COLON];
          r := Write(o[i].1, r);
          assert r == start + (Quoted(o[i].0) + ([COLON] + Render(o[i].1)));
      }
      assert r == start + Child(j, i);
    }
    NoChildren(j, r);
  }

  // ---- parsing ----

  ghost function Onto<T>(acc: seq<T>, more: Result<(seq<T>, nat), Error>): Result<(seq<T>, nat), Error> {
    match more
    case Err(e) => Err(e)
    case Ok((xs, k)) => Ok((acc + xs, k))
  }

  lemma OntoOne<T>(acc: seq<T>, x: T, more: Result<(seq<T>, nat), Error>)
    requires more.Ok?
    ensures Onto(acc, Ok(([x] + more.value.0, more.value.1))) == Onto(acc + [x], more)
    ensures Onto(acc, Ok(([x], more.value.1))) == Ok((acc + [x], more.value.1))
  {
    assert acc + ([x] + more.value.0) == acc + [x] + more.value.0;
  }

  lemma OntoNone<T>(more: Result<(seq<T>, nat), Error>)
    ensures Onto([], more) == more
  {
    assert more.Ok? ==> [] + more.value.0 == more.value.0;
  }

  method Skip(b: seq<byte>, start: nat) returns (p: nat)
    requires start <= |b|
    ensures p == SkipWs(b, start)
  {
    p := start;
    while p < |b| && IsSpace(b[p])
      invariant start <= p <= |b| && SkipWs(b, p) == SkipWs(b, start)
    {
      p := p + 1;
    }
  }

  method ReadChars(b: seq<byte>, start: nat) returns (r: Result<(seq<Scalar>, nat), Error>)
    requires start <= |b|
    ensures r == ParseChars(b, start)
  {
    hide ParseChar;
    var s: seq<Scalar> := [];
    var p := start;
    OntoNone(ParseChars(b, start));
    while true
      invariant start <= p <= |b| && Onto(s, ParseChars(b, p)) == ParseChars(b, start)
      decreases |b| - p
    {
      if p == |b| {
        return Err(Unterminated);
      }
      if b[p] == QUOTE {
        assert s + [] == s;
        return Ok((s, p + 1));
      }
      var c := ParseChar(b, p);
      if c.Err? {
        return Err(c.error);
      }
      ghost var more := ParseChars(b, c.value.1);
      if more.Ok? {
        OntoOne(s, c.value.0, more);
      }
      s, p := s + [c.value.0], c.value.1;
    }
  }

  /** The loop over the elements of an array. */
  method ReadElements(b: seq<byte>, start: nat) returns (r: Result<(seq<Json>, nat), Error>)
    requires start <= |b|
    ensures r == ParseElements(b, start)
    decreases |b| - start, 1
  {
    hide ParseValue, SkipWs;
    var a: seq<Json> := [];
    var p := start;
    OntoNone(ParseElements(b, start));
    while true
      invariant start <= p <= |b| && Onto(a, ParseElements(b, p)) == ParseElements(b, start)
      decreases |b| - p
    {
      var v := ReadValue(b, p);
      if v.Err? {
        return Err(v.error);
      }
      var i := Skip(b, v.value.1);
      if i == |b| {
        return Err(Expected);
      }
      if b[i] == 0x5D {
        return Ok((a + [v.value.0], i + 1));
      }
      if b[i] != COMMA {
        return Err(Expected);
      }
      ghost var more := ParseElements(b, i + 1);
      if more.Ok? {
        OntoOne(a, v.value.0, more);
      }
      a, p := a + [v.value.0], i + 1;
    }
  }

  method ReadMember(b: seq<byte>, start: nat) returns (r: Result<((seq<Scalar>, Json), nat), Error>)
    requires start <= |b|
    ensures r == ParseMember(b, start)
    decreases |b| - start, 1
  {
    hide ParseValue, SkipWs;
    var p := Skip(b, start);
    var key := ReadValue(b, p);
    if key.Err? {
      return Err(key.error);
    }
    if !key.value.0.Str? {
      return Err(BadKey);
    }
    var i := Skip(b, key.value.1);
    if i == |b| || b[i] != COLON {
      return Err(Expected);
    }
    var v := ReadValue(b, i + 1);
    if v.Err? {
      return Err(v.error);
    }
    r := Ok(((key.value.0.s, v.value.0), v.value.1));
  }

  /** The loop over the members of an object. */
  method ReadMembers(b: seq<byte>, start: nat) returns (r: Result<(seq<(seq<Scalar>, Json)>, nat), Error>)
    requires start <= |b|
    ensures r == ParseMembers(b, start)
    decreases |b| - start, 2
  {
    hide ParseMember, SkipWs;
    var o: seq<(seq<Scalar>, Json)> := [];
    var p := start;
    OntoNone(ParseMembers(b, start));
    while true
      invariant start <= p <= |b| && Onto(o, ParseMembers(b, p)) == ParseMembers(b, start)
      decreases |b| - p
    {
      var m := ReadMember(b, p);
      if m.Err? {
        return Err(m.error);
      }
      var i := Skip(b, m.value.1);
      if i == |b| {
        return Err(Expected);
      }
      if b[i] == 0x7D {
        return Ok((o + [m.value.0], i + 1));
      }
      if b[i] != COMMA {
        return Err(Expected);
      }
      ghost var more := ParseMembers(b, i + 1);
      if more.Ok? {
        OntoOne(o, m.value.0, more);
      }
      o, p := o + [m.value.0], i + 1;
    }
  }

  /** `parse_value`. */
  method ReadValue(b: seq<byte>, start: nat) returns (r: Result<(Json, nat), Error>)
    requires start <= |b|
    ensures r == ParseValue(b, start)
    decreases |b| - start, 0
  {
    hide ParseElements, ParseMembers, ParseChars, ParseNumber, SkipWs;
    var q := Skip(b, start);
    if q == |b| {
      return Err(Eof);
    }
    var c := b[q];
    if c == 0x7B {
      var i := Skip(b, q + 1);
      if i < |b| && b[i] == 0x7D {
        return Ok((Obj([]), i + 1));
      }
      var o := ReadMembers(b, i);
      return if o.Err? then Err(o.error) else Ok((Obj(o.value.0), o.value.1));
    }
    if c == 0x5B {
      var i := Skip(b, q + 1);
      if i < |b| && b[i] == 0x5D {
        return Ok((Arr([]), i + 1));
      }
      var a := ReadElements(b, i);
      return if a.Err? then Err(a.error) else Ok((Arr(a.value.0), a.value.1));
    }
    if c == QUOTE {
      var s := ReadChars(b, q + 1);
      return if s.Err? then Err(s.error) else Ok((Str(s.value.0), s.value.1));
    }
    if c == 0x74 {
      return Literal(b, q, [0x74, 0x72, 0x75, 0x65], Bool(true));
    }
    if c == 0x66 {
      return Literal(b, q, [0x66, 0x61, 0x6C, 0x73, 0x65], Bool(false));
    }
    if c == 0x6E {
      return Literal(b, q, [0x6E, 0x75, 0x6C, 0x6C], Null);
    }
    return ParseNumber(b, q);
  }

  /** `parse`. */
  method Read(b: seq<byte>) returns (r: Result<Json, Error>)
    ensures r == Parse(b)
  {
    hide ParseValue, SkipWs;
    var v := ReadValue(b, 0);
    if v.Err? {
      return Err(v.error);
    }
    var p := Skip(b, v.value.1);
    return if p != |b| then Err(Trailing) else Ok(v.value.0);
  }
}
