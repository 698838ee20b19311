/** Avro schemas as JSON documents, and back. */
module AvroSchema {
  /* `schema_to_json` and `parse_schema`. */

  import opened Wrappers
  import opened Bytes
  import opened Unicode
  import opened Avro

  /** A JSON document as far as schemas use it. */
  datatype JsonValue =
    | Str(t: Text)
    | List(items: seq<JsonValue>)
    | Object(members: map<Text, JsonValue>)
    | Other

  function Ascii(s: string): (t: Text)
    ensures |t| == |s| && forall i :: 0 <= i < |s| ==> t[i] == s[i] as int % 128
  {
    seq(|s|, i requires 0 <= i < |s| => s[i] as int % 128)
  }

  lemma AsciiIsText(s: string)
    ensures IsUtf8(Ascii(s))
  {
    AsciiIsUtf8(Ascii(s));
  }

  const TYPE: Text := Ascii("type")
  const NAME: Text := Ascii("name")
  const FIELDS: Text := Ascii("fields")
  const ITEMS: Text := Ascii("items")
  const VALUES: Text := Ascii("values")
  const RECORD: Text := Ascii("record")
  const ARRAY: Text := Ascii("array")
  const MAP: Text := Ascii("map")

  // ---- printing ----

  predicate Primitive(s: Schema) {
    KindFor(s) < 8
  }

  function PrimitiveName(s: Schema): Text
    requires Primitive(s)
  {
    match s
    case SNull => Ascii("null")
    case SBoolean => Ascii("boolean")
    case SInt => Ascii("int")
    case SLong => Ascii("long")
    case SFloat => Ascii("float")
    case SDouble => Ascii("double")
    case SBytes => Ascii("bytes")
    case SString => Ascii("string")
  }

  function ToJson(s: Schema): JsonValue
    decreases s, 1, 0
  {
    match s
    case SRecord(name, _) => Object(map[TYPE := Str(RECORD), NAME := Str(name), FIELDS := List(FieldsJson(s, 0))])
    case SArray(item) => Object(map[TYPE := Str(ARRAY), ITEMS := ToJson(item)])
    case SMap(item) => Object(map[TYPE := Str(MAP), VALUES := ToJson(item)])
    case SUnion(_) => List(OptionsJson(s, 0))
    case _ => Str(PrimitiveName(s))
  }

  function FieldsJson(s: Schema, i: nat): seq<JsonValue>
    requires s.SRecord? && i <= |s.fields|
    decreases s, 0, |s.fields| - i
  {
    if i == |s.fields| then [] else
    [Object(map[NAME := Str(s.fields[i].0), TYPE := ToJson(s.fields[i].1)])] + FieldsJson(s, i + 1)
  }

  function OptionsJson(s: Schema, i: nat): seq<JsonValue>
    requires s.SUnion? && i <= |s.opts|
    decreases s, 0, |s.opts| - i
  {
    if i == |s.opts| then [] else [ToJson(s.opts[i])] + OptionsJson(s, i + 1)
  }

  // ---- parsing; None is a panic ----

  function ParsePrimitive(t: Text): Option<Schema> {
    if t == Ascii("null") then Some(SNull)
    else if t == Ascii("boolean") then Some(SBoolean)
    else if t == Ascii("int") then Some(SInt)
    else if t == Ascii("long") then Some(SLong)
    else if t == Ascii("float") then Some(SFloat)
    else if t == Ascii("double") then Some(SDouble)
    else if t == Ascii("bytes") then Some(SBytes)
    else if t == Ascii("string") then Some(SString)
    else None
  }

  /** A string member, if there is one. */
  function StrAt(j: JsonValue, key: Text): Option<Text>
    requires j.Object?
  {
    if key in j.members && j.members[key].Str? then Some(j.members[key].t) else None
  }

  function Parse(j: JsonValue): Option<Schema>
    decreases j, 1, 0
  {
    match j
    case Str(t) => ParsePrimitive(t)
    case List(_) => (match ParseOptions(j, 0) case None => None case Some(opts) => Some(SUnion(opts)))
    case Object(m) =>
      (match StrAt(j, TYPE)
       case None => None
       case Some(t) =>
         if t == RECORD then
           if FIELDS in m && m[FIELDS].List? then
             match ParseFields(m[FIELDS], 0)
             case None => None
             case Some(fields) => Some(SRecord(if StrAt(j, NAME).Some? then StrAt(j, NAME).value else Ascii("r"), fields))
           else None
         else if t == ARRAY then
           if ITEMS in m then (match Parse(m[ITEMS]) case None => None case Some(s) => Some(SArray(s))) else None
         else if t == MAP then
           if VALUES in m then (match Parse(m[VALUES]) case None => None case Some(s) => Some(SMap(s))) else None
         else ParsePrimitive(t))
    case Other => None
  }

  function ParseOptions(j: JsonValue, i: nat): Option<seq<Schema>>
    requires j.List? && i <= |j.items|
    decreases j, 0, |j.items| - i
  {
    if i == |j.items| then Some([]) else
    match Parse(j.items[i])
    case None => None
    case Some(s) => match ParseOptions(j, i + 1) case None => None case Some(more) => Some([s] + more)
  }

  function ParseFields(j: JsonValue, i: nat): Option<seq<(Text, Schema)>>
    requires j.List? && i <= |j.items|
    decreases j, 0, |j.items| - i
  {
    if i == |j.items| then Some([]) else
    var f := j.items[i];
    if !f.Object? || StrAt(f, NAME) == None || TYPE !in f.members then None else
    match Parse(f.members[TYPE])
    case None => None
    case Some(s) =>
      match ParseFields(j, i + 1)
      case None => None
      case Some(more) => Some([(StrAt(f, NAME).value, s)] + more)
  }

  // ---- parsing undoes printing ----

  lemma PrimitiveOfName(s: Schema)
    requires Primitive(s)
    ensures ParsePrimitive(PrimitiveName(s)) == Some(s)
  {
    FirstLetters();
  }

  /** Names of one length differ in their first letters. */
  lemma FirstLetters()
    ensures Ascii("null")[0] == 110 && Ascii("long")[0] == 108
    ensures Ascii("float")[0] == 102 && Ascii("bytes")[0] == 98
    ensures Ascii("double")[0] == 100 && Ascii("string")[0] == 115
    ensures Ascii("record")[0] == 114 && Ascii("array")[0] == 97 && Ascii("type")[0] == 116
  {
  }

  lemma KeysDiffer()
    ensures TYPE != NAME && TYPE != FIELDS && TYPE != ITEMS && TYPE != VALUES && NAME != FIELDS
    ensures RECORD != ARRAY && RECORD != MAP && ARRAY != MAP
  {
    FirstLetters();
    assert NAME[0] == 110;
  }

  lemma {:induction false} FieldsJsonAt(s: Schema, i: nat, k: nat)
    requires s.SRecord? && i <= |s.fields| && k < |s.fields| - i
    ensures |FieldsJson(s, i)| == |s.fields| - i
    ensures FieldsJson(s, i)[k] == Object(map[NAME := Str(s.fields[i + k].0), TYPE := ToJson(s.fields[i + k].1)])
    decreases |s.fields| - i
  {
    hide ToJson;
    if i + 1 < |s.fields| {
      FieldsJsonAt(s, i + 1, if k == 0 then 0 else k - 1);
    }
  }

  lemma {:induction false} OptionsJsonAt(s: Schema, i: nat, k: nat)
    requires s.SUnion? && i <= |s.opts| && k < |s.opts| - i
    ensures |OptionsJson(s, i)| == |s.opts| - i && OptionsJson(s, i)[k] == ToJson(s.opts[i + k])
    decreases |s.opts| - i
  {
    hide ToJson;
    if i + 1 < |s.opts| {
      OptionsJsonAt(s, i + 1, if k == 0 then 0 else k - 1);
    }
  }

  lemma {:induction false} ParseFieldsOf(s: Schema, i: nat)
    requires s.SRecord? && i <= |s.fields|
    ensures |FieldsJson(s, 0)| == |s.fields| && ParseFields(List(FieldsJson(s, 0)), i) == Some(s.fields[i..])
    decreases s, 0, |s.fields| - i
  {
    hide ToJson, Parse;
    if i < |s.fields| {
      FieldsJsonAt(s, 0, i);
      KeysDiffer();
      ParseOfJson(s.fields[i].1);
      ParseFieldsOf(s, i + 1);
      assert s.fields[i..] == [s.fields[i]] + s.fields[i + 1..];
    } else {
      assert s.fields[i..] == [];
      if i > 0 {
        FieldsJsonAt(s, 0, 0);
      }
    }
  }

  lemma {:induction false} ParseOptionsOf(s: Schema, i: nat)
    requires s.SUnion? && i <= |s.opts|
    ensures |OptionsJson(s, 0)| == |s.opts| && ParseOptions(List(OptionsJson(s, 0)), i) == Some(s.opts[i..])
    decreases s, 0, |s.opts| - i
  {
    hide ToJson, Parse;
    if i < |s.opts| {
      OptionsJsonAt(s, 0, i);
      ParseOfJson(s.opts[i]);
      ParseOptionsOf(s, i + 1);
      assert s.opts[i..] == [s.opts[i]] + s.opts[i + 1..];
    } else {
      assert s.opts[i..] == [];
      if i > 0 {
        OptionsJsonAt(s, 0, 0);
      }
    }
  }

  /** Parsing the document of any schema gives the schema. */
  lemma {:induction false} ParseOfJson(s: Schema)
    ensures Parse(ToJson(s)) == Some(s)
    decreases s, 1, 0
  {
    hide ParseFields, ParseOptions, FieldsJson, OptionsJson, ParsePrimitive, PrimitiveName;
    KeysDiffer();
    match s {
      case SRecord(_, fields) =>
        ParseFieldsOf(s, 0);
        assert fields[0..] == fields;
      case SArray(item) => ParseOfJson(item);
      case SMap(item) => ParseOfJson(item);
      case SUnion(opts) =>
        ParseOptionsOf(s, 0);
        assert opts[0..] == opts;
      case _ => PrimitiveOfName(s);
    }
  }

  // ---- which documents are schemas ----

  /** The document is the name, or an object whose type is the name. */
  ghost predicate Named(j: JsonValue, name: string) {
    j == Str(Ascii(name)) || Typed(j, name)
  }

  ghost predicate Typed(j: JsonValue, name: string) {
    Holds(j, "type") && Under(j, "type") == Str(Ascii(name))
  }

  ghost predicate Holds(j: JsonValue, key: string) {
    j.Object? && Ascii(key) in j.members
  }

  ghost function Under(j: JsonValue, key: string): JsonValue
    requires Holds(j, key)
  {
    j.members[Ascii(key)]
  }

  /** The schemas that a document stands for (Avro specification, "Schema Declaration"); a record may lack a name. */
  ghost predicate Denotes(j: JsonValue, s: Schema)
    decreases s, 1
  {
    match s
    case SNull => Named(j, "null")
    case SBoolean => Named(j, "boolean")
    case SInt => Named(j, "int")
    case SLong => Named(j, "long")
    case SFloat => Named(j, "float")
    case SDouble => Named(j, "double")
    case SBytes => Named(j, "bytes")
    case SString => Named(j, "string")
    case SRecord(name, _) =>
      && Typed(j, "record") && name == (if Holds(j, "name") && Under(j, "name").Str? then Under(j, "name").t else Ascii("r"))
      && Holds(j, "fields") && Under(j, "fields").List? && DenotesFields(Under(j, "fields").items, s)
    case SArray(item) => Typed(j, "array") && Holds(j, "items") && Denotes(Under(j, "items"), item)
    case SMap(item) => Typed(j, "map") && Holds(j, "values") && Denotes(Under(j, "values"), item)
    case SUnion(opts) => j.List? && |j.items| == |opts| && forall i :: 0 <= i < |opts| ==> Denotes(j.items[i], opts[i])
  }

  ghost predicate DenotesFields(items: seq<JsonValue>, s: Schema)
    requires s.SRecord?
    decreases s, 0
  {
    |items| == |s.fields| && forall i :: 0 <= i < |s.fields| ==>
      && Holds(items[i], "name") && Under(items[i], "name") == Str(s.fields[i].0)
      && Holds(items[i], "type") && Denotes(Under(items[i], "type"), s.fields[i].1)
  }

  lemma PrimitiveIff(t: Text, s: Schema)
    ensures ParsePrimitive(t) == Some(s) <==>
      || (s == SNull && t == Ascii("null")) || (s == SBoolean && t == Ascii("boolean")) || (s == SInt && t == Ascii("int"))
      || (s == SLong && t == Ascii("long")) || (s == SFloat && t == Ascii("float")) || (s == SDouble && t == Ascii("double"))
      || (s == SBytes && t == Ascii("bytes")) || (s == SString && t == Ascii("string"))
  {
    FirstLetters();
  }

  ghost predicate EachDenotes(items: seq<JsonValue>, opts: seq<Schema>) {
    |items| == |opts| && forall i :: 0 <= i < |opts| ==> Denotes(items[i], opts[i])
  }

  ghost predicate FieldDenotes(j: JsonValue, f: (Text, Schema)) {
    Holds(j, "name") && Under(j, "name") == Str(f.0) && Holds(j, "type") && Denotes(Under(j, "type"), f.1)
  }

  ghost predicate EachFieldDenotes(items: seq<JsonValue>, fields: seq<(Text, Schema)>) {
    |items| == |fields| && forall i :: 0 <= i < |fields| ==> FieldDenotes(items[i], fields[i])
  }

  lemma EachDenotesCons(items: seq<JsonValue>, opts: seq<Schema>)
    requires items != [] && opts != []
    ensures EachDenotes(items, opts) <==> Denotes(items[0], opts[0]) && EachDenotes(items[1..], opts[1..])
  {
    hide Denotes;
    if EachDenotes(items[1..], opts[1..]) {
      assert forall i :: 0 < i < |opts| ==> items[i] == items[1..][i - 1] && opts[i] == opts[1..][i - 1];
    }
  }

  lemma EachFieldCons(items: seq<JsonValue>, fields: seq<(Text, Schema)>)
    requires items != [] && fields != []
    ensures EachFieldDenotes(items, fields) <==> FieldDenotes(items[0], fields[0]) && EachFieldDenotes(items[1..], fields[1..])
  {
    hide FieldDenotes;
    if EachFieldDenotes(items[1..], fields[1..]) {
      assert forall i :: 0 < i < |fields| ==> items[i] == items[1..][i - 1] && fields[i] == fields[1..][i - 1];
    }
  }

  lemma {:induction false} OptionsIff(j: JsonValue, i: nat, opts: seq<Schema>)
    requires j.List? && i <= |j.items|
    ensures ParseOptions(j, i) == Some(opts) <==> EachDenotes(j.items[i..], opts)
    decreases j, 0, |j.items| - i
  {
    hide Parse, Denotes, EachDenotes;
    NoneDenoted(j.items[i..], opts);
    if i < |j.items| && opts != [] {
      ParseIff(j.items[i], opts[0]);
      OptionsIff(j, i + 1, opts[1..]);
      EachDenotesCons(j.items[i..], opts);
      assert j.items[i..][1..] == j.items[i + 1..] && opts == [opts[0]] + opts[1..];
    }
  }

  lemma NoneDenoted(items: seq<JsonValue>, opts: seq<Schema>)
    ensures items == [] || opts == [] ==> (EachDenotes(items, opts) <==> items == [] && opts == [])
  {
  }

  lemma NoFieldDenoted(items: seq<JsonValue>, fields: seq<(Text, Schema)>)
    ensures items == [] || fields == [] ==> (EachFieldDenotes(items, fields) <==> items == [] && fields == [])
  {
  }

  lemma FieldIff(j: JsonValue, f: (Text, Schema))
    requires Holds(j, "type") ==> (Parse(Under(j, "type")) == Some(f.1) <==> Denotes(Under(j, "type"), f.1))
    ensures FieldDenotes(j, f) <==> j.Object? && StrAt(j, NAME) == Some(f.0) && TYPE in j.members && Parse(j.members[TYPE]) == Some(f.1)
  {
    hide Parse, Denotes;
  }

  lemma {:induction false} FieldsIff(j: JsonValue, i: nat, fields: seq<(Text, Schema)>)
    requires j.List? && i <= |j.items|
    ensures ParseFields(j, i) == Some(fields) <==> EachFieldDenotes(j.items[i..], fields)
    decreases j, 0, |j.items| - i
  {
    hide Parse, Denotes, EachFieldDenotes, FieldDenotes;
    NoFieldDenoted(j.items[i..], fields);
    if i < |j.items| && fields != [] {
      var f := j.items[i];
      if Holds(f, "type") {
        ParseIff(Under(f, "type"), fields[0].1);
      }
      FieldIff(f, fields[0]);
      FieldsIff(j, i + 1, fields[1..]);
      EachFieldCons(j.items[i..], fields);
      assert j.items[i..][1..] == j.items[i + 1..] && fields == [fields[0]] + fields[1..];
    }
  }

  lemma DenotesParts(j: JsonValue, s: Schema)
    ensures s.SUnion? ==> (Denotes(j, s) <==> j.List? && EachDenotes(j.items, s.opts))
    ensures s.SRecord? ==>
      (Denotes(j, s) <==>
        && Typed(j, "record") && s.name == (if Holds(j, "name") && Under(j, "name").Str? then Under(j, "name").t else Ascii("r"))
        && Holds(j, "fields") && Under(j, "fields").List? && EachFieldDenotes(Under(j, "fields").items, s.fields))
  {
    hide Ascii;
  }

  lemma {:induction false} ObjectIff(j: JsonValue, s: Schema)
    requires j.Object?
    ensures Parse(j) == Some(s) <==> Denotes(j, s)
    decreases j, 0, 0
  {
    hide ParsePrimitive, ParseFields, EachFieldDenotes, Ascii;
    KeysDiffer();
    NotPrimitives();
    DenotesParts(j, s);
    if Holds(j, "type") && Under(j, "type").Str? {
      PrimitiveIff(Under(j, "type").t, s);
      if s.SRecord? && Holds(j, "fields") && Under(j, "fields").List? {
        FieldsIff(Under(j, "fields"), 0, s.fields);
        assert Under(j, "fields").items[0..] == Under(j, "fields").items;
      } else if s.SArray? && Holds(j, "items") {
        ParseIff(Under(j, "items"), s.item);
      } else if s.SMap? && Holds(j, "values") {
        ParseIff(Under(j, "values"), s.item);
      }
    }
  }

  /** Parsing gives a schema exactly if the document stands for it. */
  lemma {:induction false} ParseIff(j: JsonValue, s: Schema)
    ensures Parse(j) == Some(s) <==> Denotes(j, s)
    decreases j, 1, 0
  {
    hide ParsePrimitive, ParseOptions, ParseFields, EachDenotes, Ascii;
    match j {
      case Str(t) => PrimitiveIff(t, s);
      case List(items) =>
        DenotesParts(j, s);
        if s.SUnion? {
          OptionsIff(j, 0, s.opts);
          assert items[0..] == items;
        }
      case Object(m) => ObjectIff(j, s);
      case Other =>
    }
  }

  lemma NotPrimitives()
    ensures ParsePrimitive(RECORD) == None && ParsePrimitive(ARRAY) == None && ParsePrimitive(MAP) == None
  {
    FirstLetters();
    assert MAP[0] == 109 && Ascii("int")[0] == 105;
  }
}
