/**
 Protobuf messages and their canonical JSON form, as trees. A descriptor gives the fields of a
 message type; fields holding their default are left out of the JSON, as the "JSON Mapping"
 section of the proto3 language guide asks. The text of JSON and YAML is not modelled.
 */
module Codec {
  import opened Wrappers

  datatype Json =
    | Null
    | Text(text: string)
    | Array(items: seq<Json>)
    | Object(members: map<string, Json>)

  datatype Kind =
    | StringKind
    | StringsKind
    | MessageKind(fields: seq<Field>)
    | MessagesKind(fields: seq<Field>)

  datatype Field = Field(name: string, kind: Kind)

  /** The value of a field; Absent is a submessage pointer that is nil. */
  datatype Value =
    | Str(s: string)
    | Strs(strings: seq<string>)
    | Absent
    | Nested(body: seq<Value>)
    | Repeated(bodies: seq<seq<Value>>)

  datatype CodecError = UnknownField | WrongShape | UnknownMessageType | NilMessage

  function FieldNames(fields: seq<Field>): (names: set<string>)
    ensures forall n | n in names :: exists i | 0 <= i < |fields| :: fields[i].name == n
  {
    if fields == [] then {} else {fields[0].name} + FieldNames(fields[1..])
  }

  /** Field names are distinct at every level of a message type. */
  predicate WellFormed(fields: seq<Field>) {
    fields == []
    || (&& fields[0].name !in FieldNames(fields[1..])
        && (fields[0].kind.MessageKind? || fields[0].kind.MessagesKind? ==>
              WellFormed(fields[0].kind.fields))
        && WellFormed(fields[1..]))
  }

  /** A value has the Go type its kind generates. */
  predicate HasKind(kind: Kind, v: Value)
    decreases kind
  {
    match kind
    case StringKind => v.Str?
    case StringsKind => v.Strs?
    case MessageKind(fields) => v.Absent? || (v.Nested? && HasType(fields, v.body))
    case MessagesKind(fields) => v.Repeated? && forall i | 0 <= i < |v.bodies| :: HasType(fields, v.bodies[i])
  }

  predicate HasType(fields: seq<Field>, values: seq<Value>)
    decreases fields
  {
    |fields| == |values|
    && (fields == [] || (HasKind(fields[0].kind, values[0]) && HasType(fields[1..], values[1..])))
  }

  function Default(kind: Kind): (v: Value)
    ensures HasKind(kind, v)
  {
    match kind
    case StringKind => Str("")
    case StringsKind => Strs([])
    case MessageKind(_) => Absent
    case MessagesKind(_) => Repeated([])
  }

  // ---- Encoding ----------------------------------------------------------------------------

  function EncodeStrings(strings: seq<string>): (items: seq<Json>)
    ensures |items| == |strings|
  {
    if strings == [] then [] else [Text(strings[0])] + EncodeStrings(strings[1..])
  }

  /** The JSON of one field, or nothing when the field holds its default. */
  function EncodeValue(kind: Kind, v: Value): Option<Json>
    requires HasKind(kind, v)
    decreases kind, 0
  {
    if v == Default(kind) then None
    else
      match kind
      case StringKind => Some(Text(v.s))
      case StringsKind => Some(Array(EncodeStrings(v.strings)))
      case MessageKind(fields) => Some(Object(Encode(fields, v.body)))
      case MessagesKind(fields) => Some(Array(EncodeBodies(fields, v.bodies)))
  }

  function EncodeBodies(fields: seq<Field>, bodies: seq<seq<Value>>): (items: seq<Json>)
    requires forall i | 0 <= i < |bodies| :: HasType(fields, bodies[i])
    ensures |items| == |bodies|
    decreases fields, |bodies| + 1
  {
    if bodies == [] then []
    else [Object(Encode(fields, bodies[0]))] + EncodeBodies(fields, bodies[1..])
  }

  /** The JSON object of a message. */
  function Encode(fields: seq<Field>, values: seq<Value>): map<string, Json>
    requires HasType(fields, values)
    decreases fields, 0
  {
    if fields == [] then map[]
    else
      var rest := Encode(fields[1..], values[1..]);
      match EncodeValue(fields[0].kind, values[0])
      case None => rest
      case Some(j) => rest[fields[0].name := j]
  }

  // ---- Decoding ----------------------------------------------------------------------------

  function DecodeStrings(items: seq<Json>): Result<seq<string>, CodecError> {
    if items == [] then Ok([])
    else if !items[0].Text? then Err(WrongShape)
    else
      match DecodeStrings(items[1..])
      case Err(e) => Err(e)
      case Ok(rest) => Ok([items[0].text] + rest)
  }

  /** The value of one field; a missing field and a null both stand for the default. */
  function DecodeValue(kind: Kind, j: Json): (r: Result<Value, CodecError>)
    ensures r.Ok? ==> HasKind(kind, r.value)
    decreases kind, 0
  {
    if j == Null then Ok(Default(kind))
    else
      match kind
      case StringKind => if j.Text? then Ok(Str(j.text)) else Err(WrongShape)
      case StringsKind =>
        if !j.Array? then Err(WrongShape)
        else (match DecodeStrings(j.items)
              case Err(e) => Err(e)
              case Ok(strings) => Ok(Strs(strings)))
      case MessageKind(fields) =>
        if !j.Object? then Err(WrongShape)
        else (match Decode(fields, j.members)
              case Err(e) => Err(e)
              case Ok(body) => Ok(Nested(body)))
      case MessagesKind(fields) =>
        if !j.Array? then Err(WrongShape)
        else (match DecodeBodies(fields, j.items)
              case Err(e) => Err(e)
              case Ok(bodies) => Ok(Repeated(bodies)))
  }

  function DecodeBodies(fields: seq<Field>, items: seq<Json>): (r: Result<seq<seq<Value>>, CodecError>)
    ensures r.Ok? ==> forall i | 0 <= i < |r.value| :: HasType(fields, r.value[i])
    decreases fields, |items| + 2
  {
    if items == [] then Ok([])
    else if !items[0].Object? then Err(WrongShape)
    else
      match Decode(fields, items[0].members)
      case Err(e) => Err(e)
      case Ok(body) =>
        match DecodeBodies(fields, items[1..])
        case Err(e) => Err(e)
        case Ok(rest) => Ok([body] + rest)
  }

  function Member(members: map<string, Json>, name: string): Json {
    if name in members then members[name] else Null
  }

  function DecodeFields(fields: seq<Field>, members: map<string, Json>): (r: Result<seq<Value>, CodecError>)
    ensures r.Ok? ==> HasType(fields, r.value)
    decreases fields, 0
  {
    if fields == [] then Ok([])
    else
      match DecodeValue(fields[0].kind, Member(members, fields[0].name))
      case Err(e) => Err(e)
      case Ok(v) =>
        match DecodeFields(fields[1..], members)
        case Err(e) => Err(e)
        case Ok(rest) => Ok([v] + rest)
  }

  /** The message of a JSON object; a member that is no field of the type is an error. */
  function Decode(fields: seq<Field>, members: map<string, Json>): (r: Result<seq<Value>, CodecError>)
    ensures r.Ok? ==> HasType(fields, r.value)
    decreases fields, 1
  {
    if members.Keys <= FieldNames(fields) then DecodeFields(fields, members) else Err(UnknownField)
  }

  // ---- Round trip --------------------------------------------------------------------------

  /** Decoding the encoding of any message gives the message back. */
  lemma {:induction false} DecodeEncode(fields: seq<Field>, values: seq<Value>)
    requires WellFormed(fields) && HasType(fields, values)
    ensures Decode(fields, Encode(fields, values)) == Ok(values)
    decreases fields, 1
  {
    EncodedKeys(fields, values);
    DecodeFieldsEncode(fields, values, Encode(fields, values));
  }

  lemma {:induction false} EncodedKeys(fields: seq<Field>, values: seq<Value>)
    requires HasType(fields, values)
    ensures Encode(fields, values).Keys <= FieldNames(fields)
    decreases fields
  {
    if fields != [] {
      EncodedKeys(fields[1..], values[1..]);
    }
  }

  /** Decoding looks only at the members a type's own fields name. */
  lemma {:induction false} DecodeFieldsEncode(fields: seq<Field>, values: seq<Value>, members: map<string, Json>)
    requires WellFormed(fields) && HasType(fields, values)
    requires forall n | n in FieldNames(fields) :: Member(members, n) == Member(Encode(fields, values), n)
    ensures DecodeFields(fields, members) == Ok(values)
    decreases fields, 0
  {
    if fields != [] {
      var f, rest := fields[0], Encode(fields[1..], values[1..]);
      EncodedKeys(fields[1..], values[1..]);
      DecodeFieldsEncode(fields[1..], values[1..], members);
      DecodeValueEncode(f.kind, values[0]);
      assert f.name in FieldNames(fields);
      assert Member(members, f.name)
          == match EncodeValue(f.kind, values[0]) case None => Null case Some(j) => j;
      assert values == [values[0]] + values[1..];
    }
  }

  lemma {:induction false} DecodeValueEncode(kind: Kind, v: Value)
    requires HasKind(kind, v)
    requires kind.MessageKind? || kind.MessagesKind? ==> WellFormed(kind.fields)
    ensures var j := match EncodeValue(kind, v) case None => Null case Some(j) => j;
            DecodeValue(kind, j) == Ok(v)
    decreases kind, 0
  {
    if v != Default(kind) {
      match kind
      case StringKind =>
      case StringsKind => DecodeEncodeStrings(v.strings);
      case MessageKind(fields) => DecodeEncode(fields, v.body);
      case MessagesKind(fields) => DecodeEncodeBodies(fields, v.bodies);
    }
  }

  lemma {:induction false} DecodeEncodeStrings(strings: seq<string>)
    ensures DecodeStrings(EncodeStrings(strings)) == Ok(strings)
  {
    if strings != [] {
      DecodeEncodeStrings(strings[1..]);
      assert EncodeStrings(strings)[1..] == EncodeStrings(strings[1..]);
      assert strings == [strings[0]] + strings[1..];
    }
  }

  lemma {:induction false} DecodeEncodeBodies(fields: seq<Field>, bodies: seq<seq<Value>>)
    requires WellFormed(fields)
    requires forall i | 0 <= i < |bodies| :: HasType(fields, bodies[i])
    ensures DecodeBodies(fields, EncodeBodies(fields, bodies)) == Ok(bodies)
    decreases fields, |bodies| + 2
  {
    if bodies != [] {
      DecodeEncode(fields, bodies[0]);
      DecodeEncodeBodies(fields, bodies[1..]);
      assert EncodeBodies(fields, bodies)[1..] == EncodeBodies(fields, bodies[1..]);
      assert bodies == [bodies[0]] + bodies[1..];
    }
  }

  // ---- The other way round -----------------------------------------------------------------

  /** A member that writes no default out, at any depth. */
  predicate IsCanonicalValue(kind: Kind, j: Json)
    decreases kind, 0
  {
    && j != Null
    && match kind
       case StringKind => j != Text("")
       case StringsKind => j != Array([])
       case MessageKind(fields) => j.Object? ==> IsCanonical(fields, j.members)
       case MessagesKind(fields) =>
         && j != Array([])
         && (j.Array? ==>
               forall i | 0 <= i < |j.items| && j.items[i].Object? :: IsCanonical(fields, j.items[i].members))
  }

  predicate IsCanonical(fields: seq<Field>, members: map<string, Json>)
    decreases fields, 0
  {
    fields == []
    || (&& (fields[0].name in members ==> IsCanonicalValue(fields[0].kind, members[fields[0].name]))
        && IsCanonical(fields[1..], members))
  }

  /** An object that decodes is written back unchanged exactly when it writes no default out. */
  lemma EncodeDecode(fields: seq<Field>, members: map<string, Json>)
    requires WellFormed(fields) && Decode(fields, members).Ok?
    ensures Encode(fields, Decode(fields, members).value) == members <==> IsCanonical(fields, members)
  {
    var values := Decode(fields, members).value;
    EncodingIsCanonical(fields, values, Encode(fields, values));
    if IsCanonical(fields, members) {
      EncodeDecodeObject(fields, members);
    }
  }

  lemma {:induction false} EncodeDecodeObject(fields: seq<Field>, members: map<string, Json>)
    requires WellFormed(fields) && Decode(fields, members).Ok? && IsCanonical(fields, members)
    ensures Encode(fields, Decode(fields, members).value) == members
    decreases fields, 1
  {
    EncodeDecodeFields(fields, members);
    assert members == map n | n in members && n in FieldNames(fields) :: members[n];
  }

  lemma {:induction false} EncodingIsCanonical(fields: seq<Field>, values: seq<Value>, members: map<string, Json>)
    requires WellFormed(fields) && HasType(fields, values)
    requires forall n | n in FieldNames(fields) && n in members ::
               n in Encode(fields, values) && Encode(fields, values)[n] == members[n]
    ensures IsCanonical(fields, members)
    decreases fields, 0
  {
    if fields != [] {
      var f, rest := fields[0], Encode(fields[1..], values[1..]);
      EncodedKeys(fields[1..], values[1..]);
      assert f.name in FieldNames(fields) && f.name !in rest;
      forall n | n in FieldNames(fields[1..]) && n in members
        ensures n in rest && rest[n] == members[n]
      {
        assert n in FieldNames(fields);
      }
      EncodingIsCanonical(fields[1..], values[1..], members);
      if f.name in members {
        assert f.name in Encode(fields, values);
        assert EncodeValue(f.kind, values[0]).Some?;
        EncodedValueIsCanonical(f.kind, values[0]);
      }
    }
  }

  lemma {:induction false} EncodedValueIsCanonical(kind: Kind, v: Value)
    requires HasKind(kind, v) && v != Default(kind)
    requires kind.MessageKind? || kind.MessagesKind? ==> WellFormed(kind.fields)
    ensures IsCanonicalValue(kind, EncodeValue(kind, v).value)
    decreases kind, 0
  {
    match kind
    case StringKind =>
    case StringsKind => assert |EncodeStrings(v.strings)| > 0;
    case MessageKind(fields) => EncodingIsCanonical(fields, v.body, Encode(fields, v.body));
    case MessagesKind(fields) => EncodedBodiesAreCanonical(fields, v.bodies);
  }

  lemma {:induction false} EncodedBodiesAreCanonical(fields: seq<Field>, bodies: seq<seq<Value>>)
    requires WellFormed(fields)
    requires forall i | 0 <= i < |bodies| :: HasType(fields, bodies[i])
    ensures forall i | 0 <= i < |bodies| ::
              var item := EncodeBodies(fields, bodies)[i];
              item.Object? && IsCanonical(fields, item.members)
    decreases fields, |bodies| + 1
  {
    if bodies != [] {
      EncodingIsCanonical(fields, bodies[0], Encode(fields, bodies[0]));
      EncodedBodiesAreCanonical(fields, bodies[1..]);
    }
  }

  lemma {:induction false} EncodeDecodeFields(fields: seq<Field>, members: map<string, Json>)
    requires WellFormed(fields) && DecodeFields(fields, members).Ok? && IsCanonical(fields, members)
    ensures Encode(fields, DecodeFields(fields, members).value)
         == map n | n in members && n in FieldNames(fields) :: members[n]
    decreases fields, 0
  {
    if fields != [] {
      var f, rest := fields[0], fields[1..];
      EncodeDecodeFields(rest, members);
      var values := DecodeFields(fields, members).value;
      assert values[1..] == DecodeFields(rest, members).value;
      var encoded := Encode(rest, values[1..]);
      if f.name in members {
        EncodeDecodeValue(f.kind, members[f.name]);
        assert Encode(fields, values) == encoded[f.name := members[f.name]];
      } else {
        assert Encode(fields, values) == encoded;
      }
      RestrictCons(members, f.name, FieldNames(rest));
    }
  }

  lemma RestrictCons(members: map<string, Json>, name: string, names: set<string>)
    requires name !in names
    ensures var rest := map n | n in members && n in names :: members[n];
            (map n | n in members && n in {name} + names :: members[n])
            == if name in members then rest[name := members[name]] else rest
  {
  }

  lemma {:induction false} EncodeDecodeValue(kind: Kind, j: Json)
    requires kind.MessageKind? || kind.MessagesKind? ==> WellFormed(kind.fields)
    requires DecodeValue(kind, j).Ok? && IsCanonicalValue(kind, j)
    ensures EncodeValue(kind, DecodeValue(kind, j).value) == Some(j)
    decreases kind, 0
  {
    match kind
    case StringKind =>
    case StringsKind => EncodeDecodeStrings(j.items);
    case MessageKind(fields) => EncodeDecodeObject(fields, j.members);
    case MessagesKind(fields) => EncodeDecodeBodies(fields, j.items);
  }

  lemma {:induction false} EncodeDecodeStrings(items: seq<Json>)
    requires DecodeStrings(items).Ok?
    ensures EncodeStrings(DecodeStrings(items).value) == items
  {
    if items != [] {
      EncodeDecodeStrings(items[1..]);
      var strings := DecodeStrings(items).value;
      assert strings[1..] == DecodeStrings(items[1..]).value;
    }
  }

  lemma {:induction false} EncodeDecodeBodies(fields: seq<Field>, items: seq<Json>)
    requires WellFormed(fields) && DecodeBodies(fields, items).Ok?
    requires forall i | 0 <= i < |items| && items[i].Object? :: IsCanonical(fields, items[i].members)
    ensures EncodeBodies(fields, DecodeBodies(fields, items).value) == items
    decreases fields, |items| + 2
  {
    if items != [] {
      var rest := items[1..];
      EncodeDecodeObject(fields, items[0].members);
      EncodeDecodeBodies(fields, rest);
      var bodies := DecodeBodies(fields, items).value;
      assert bodies[0] == Decode(fields, items[0].members).value;
      assert bodies[1..] == DecodeBodies(fields, rest).value;
      assert items == [items[0]] + rest;
    }
  }

  // ---- What decodes --------------------------------------------------------------------------

  /** Null, or of the shape of the kind at every depth. */
  predicate Accepts(kind: Kind, j: Json)
    decreases kind, 0
  {
    || j == Null
    || match kind
       case StringKind => j.Text?
       case StringsKind => j.Array? && forall i | 0 <= i < |j.items| :: j.items[i].Text?
       case MessageKind(fields) => j.Object? && Fits(fields, j.members)
       case MessagesKind(fields) =>
         j.Array? && forall i | 0 <= i < |j.items| :: j.items[i].Object? && Fits(fields, j.items[i].members)
  }

  /** Every member names a field of the type, and every field accepts its member. */
  predicate Fits(fields: seq<Field>, members: map<string, Json>)
    decreases fields, 1
  {
    && (forall n | n in members :: exists i | 0 <= i < |fields| :: fields[i].name == n)
    && forall i | 0 <= i < |fields| :: Accepts(fields[i].kind, Member(members, fields[i].name))
  }

  lemma {:induction false} FieldNamesComplete(fields: seq<Field>)
    ensures forall i | 0 <= i < |fields| :: fields[i].name in FieldNames(fields)
  {
    if fields != [] {
      FieldNamesComplete(fields[1..]);
      assert forall i | 1 <= i < |fields| :: fields[i] == fields[1..][i - 1];
    }
  }

  /** An object decodes exactly when it fits the message type. */
  lemma {:induction false} DecodesIffFits(fields: seq<Field>, members: map<string, Json>)
    ensures Decode(fields, members).Ok? <==> Fits(fields, members)
    decreases fields, 1
  {
    FieldNamesComplete(fields);
    FieldsDecodeIffAccepted(fields, members);
  }

  lemma {:induction false} FieldsDecodeIffAccepted(fields: seq<Field>, members: map<string, Json>)
    ensures DecodeFields(fields, members).Ok?
       <==> forall i | 0 <= i < |fields| :: Accepts(fields[i].kind, Member(members, fields[i].name))
    decreases fields, 0
  {
    if fields != [] {
      var f, rest := fields[0], fields[1..];
      ValueDecodesIffAccepted(f.kind, Member(members, f.name));
      FieldsDecodeIffAccepted(rest, members);
      assert forall i | 1 <= i < |fields| :: fields[i] == rest[i - 1];
    }
  }

  lemma {:induction false} ValueDecodesIffAccepted(kind: Kind, j: Json)
    ensures DecodeValue(kind, j).Ok? <==> Accepts(kind, j)
    decreases kind, 0
  {
    if j != Null {
      match kind
      case StringKind =>
      case StringsKind =>
        if j.Array? {
          StringsDecodeIffTexts(j.items);
        }
      case MessageKind(fields) =>
        if j.Object? {
          DecodesIffFits(fields, j.members);
        }
      case MessagesKind(fields) =>
        if j.Array? {
          BodiesDecodeIffFit(fields, j.items);
        }
    }
  }

  lemma {:induction false} StringsDecodeIffTexts(items: seq<Json>)
    ensures DecodeStrings(items).Ok? <==> forall i | 0 <= i < |items| :: items[i].Text?
  {
    if items != [] {
      StringsDecodeIffTexts(items[1..]);
      assert forall i | 1 <= i < |items| :: items[i] == items[1..][i - 1];
    }
  }

  lemma {:induction false} BodiesDecodeIffFit(fields: seq<Field>, items: seq<Json>)
    ensures DecodeBodies(fields, items).Ok?
       <==> forall i | 0 <= i < |items| :: items[i].Object? && Fits(fields, items[i].members)
    decreases fields, |items| + 2
  {
    if items != [] {
      if items[0].Object? {
        DecodesIffFits(fields, items[0].members);
      }
      BodiesDecodeIffFit(fields, items[1..]);
      assert forall i | 1 <= i < |items| :: items[i] == items[1..][i - 1];
    }
  }

  /** A member with nulls and defaults dropped at every depth; None when it is dropped itself. */
  function CanonicalValue(kind: Kind, j: Json): Option<Json>
    decreases kind, 0
  {
    match kind
    case StringKind => if j == Null || j == Text("") then None else Some(j)
    case StringsKind => if j == Null || j == Array([]) then None else Some(j)
    case MessageKind(fields) => if j.Object? then Some(Object(Canonical(fields, j.members))) else None
    case MessagesKind(fields) =>
      if j.Array? && j.items != [] then Some(Array(CanonicalItems(fields, j.items))) else None
  }

  function CanonicalItems(fields: seq<Field>, items: seq<Json>): seq<Json>
    decreases fields, |items| + 1
  {
    if items == [] then []
    else [if items[0].Object? then Object(Canonical(fields, items[0].members)) else items[0]]
         + CanonicalItems(fields, items[1..])
  }

  /** An object with its null and default members dropped at every depth. */
  function Canonical(fields: seq<Field>, members: map<string, Json>): map<string, Json>
    decreases fields, 0
  {
    if fields == [] then map[]
    else
      var rest := Canonical(fields[1..], members);
      match CanonicalValue(fields[0].kind, Member(members, fields[0].name))
      case None => rest
      case Some(j) => rest[fields[0].name := j]
  }

  /**
   Every object that fits is read as its canonical form is, and written back as that form: null
   and default members make no difference.
   */
  lemma ReencodesCanonically(fields: seq<Field>, members: map<string, Json>)
    requires WellFormed(fields) && Fits(fields, members)
    ensures Decode(fields, members).Ok?
    ensures Encode(fields, Decode(fields, members).value) == Canonical(fields, members)
    ensures Decode(fields, Canonical(fields, members)) == Decode(fields, members)
  {
    DecodesIffFits(fields, members);
    FieldsReencode(fields, members);
    DecodeEncode(fields, Decode(fields, members).value);
  }

  lemma {:induction false} FieldsReencode(fields: seq<Field>, members: map<string, Json>)
    requires DecodeFields(fields, members).Ok?
    ensures Encode(fields, DecodeFields(fields, members).value) == Canonical(fields, members)
    decreases fields, 0
  {
    if fields != [] {
      var f, rest := fields[0], fields[1..];
      FieldsReencode(rest, members);
      ValueReencodes(f.kind, Member(members, f.name));
      var values := DecodeFields(fields, members).value;
      assert values[1..] == DecodeFields(rest, members).value;
    }
  }

  lemma {:induction false} ValueReencodes(kind: Kind, j: Json)
    requires DecodeValue(kind, j).Ok?
    ensures EncodeValue(kind, DecodeValue(kind, j).value) == CanonicalValue(kind, j)
    decreases kind, 0
  {
    if j != Null {
      match kind
      case StringKind =>
      case StringsKind => EncodeDecodeStrings(j.items);
      case MessageKind(fields) => FieldsReencode(fields, j.members);
      case MessagesKind(fields) => BodiesReencode(fields, j.items);
    }
  }

  lemma {:induction false} BodiesReencode(fields: seq<Field>, items: seq<Json>)
    requires DecodeBodies(fields, items).Ok?
    ensures EncodeBodies(fields, DecodeBodies(fields, items).value) == CanonicalItems(fields, items)
    decreases fields, |items| + 2
  {
    if items != [] {
      var rest := items[1..];
      FieldsReencode(fields, items[0].members);
      BodiesReencode(fields, rest);
      var bodies := DecodeBodies(fields, items).value;
      assert bodies[0] == Decode(fields, items[0].members).value;
      assert bodies[1..] == DecodeBodies(fields, rest).value;
    }
  }
}
