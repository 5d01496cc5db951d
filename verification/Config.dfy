/**
 Configuration entries and the descriptor that gives each configuration type its message type,
 its plural name and its validation.
 */
module Config {
  import opened Wrappers
  import opened Codec
  import opened Names
  import opened Labels
  import Text

  /** The protobuf message types linked into the program, by name. */
  type Registry = map<string, seq<Field>>

  datatype Message = Message(typ: string, body: seq<Value>)

  /** A proto.Message interface value; None is nil. */
  type Spec = Option<Message>

  datatype Meta = Meta(
    typ: string,
    name: string,
    namespace: string,
    istioNamespace: string,
    labels: map<string, string>,
    annotations: map<string, string>,
    resourceVersion: string)

  datatype Entry = Entry(meta: Meta, spec: Spec)

  /** What a type's own validation says; Panic is a failed type assertion inside it. */
  datatype Verdict = Pass | Reject | Panic

  datatype Schema = Schema(
    typ: string,
    plural: string,
    messageName: string,
    additionalValidate: Option<Spec -> Verdict>)

  type Descriptor = seq<Schema>

  datatype Error =
    | UnrecognizedType
    | Invalid
    | Panicked
    | RevisionRequired
    | BadSpec(cause: CodecError)
    | BadDocument
    | AlreadyExists
    | NotFound
    | Conflict

  predicate WellFormedRegistry(reg: Registry) {
    forall t {:trigger WellFormed(reg[t])} | t in reg :: WellFormed(reg[t])
  }

  /** The message is a value of a linked Go type. */
  predicate WellTyped(reg: Registry, spec: Spec) {
    spec.Some? ==> spec.value.typ in reg && HasType(reg[spec.value.typ], spec.value.body)
  }

  // ---- Keys --------------------------------------------------------------------------------

  datatype ConfigKey = ConfigKey(typ: string, namespace: string, name: string)

  /** Key: the unique identifier of a configuration object, as one string. */
  function Key(typ: string, name: string, namespace: string): string {
    typ + ['/'] + namespace + ['/'] + name
  }

  function EntryKey(entry: Entry): string {
    Key(entry.meta.typ, entry.meta.name, entry.meta.namespace)
  }

  /** The pieces before and after the first separator. */
  function Cut(s: string, sep: char): Option<(string, string)> {
    if s == "" then None
    else if s[0] == sep then Some(("", s[1..]))
    else
      match Cut(s[1..], sep)
      case None => None
      case Some((before, after)) => Some(([s[0]] + before, after))
  }

  /** Reads a key back, cutting at its first two slashes. */
  function ParseKey(key: string): Option<ConfigKey> {
    match Cut(key, '/')
    case None => None
    case Some((typ, rest)) =>
      match Cut(rest, '/')
      case None => None
      case Some((namespace, name)) => Some(ConfigKey(typ, namespace, name))
  }

  lemma {:induction false} CutAtFirst(before: string, after: string, sep: char)
    ensures Cut(before + [sep] + after, sep).Some?
    ensures var (b, a) := Cut(before + [sep] + after, sep).value;
            sep !in b && (sep !in before ==> b == before && a == after)
  {
    var s := before + [sep] + after;
    if before == "" {
      assert s[1..] == after;
    } else if before[0] != sep {
      CutAtFirst(before[1..], after, sep);
      assert s[1..] == before[1..] + [sep] + after;
      assert before == [before[0]] + before[1..];
    }
  }

  /** A key is read back exactly when neither the type nor the namespace holds a slash. */
  lemma KeyParses(typ: string, name: string, namespace: string)
    ensures ParseKey(Key(typ, name, namespace)) == Some(ConfigKey(typ, namespace, name))
       <==> '/' !in typ && '/' !in namespace
  {
    var rest := namespace + ['/'] + name;
    assert Key(typ, name, namespace) == typ + ['/'] + rest;
    CutAtFirst(typ, rest, '/');
    var (_, after) := Cut(Key(typ, name, namespace), '/').value;
    if '/' !in typ {
      CutAtFirst(namespace, name, '/');
    }
  }

  /** Keys of slash-free types and namespaces identify their objects. */
  lemma KeyInjective(a: ConfigKey, b: ConfigKey)
    requires '/' !in a.typ && '/' !in a.namespace && '/' !in b.typ && '/' !in b.namespace
    requires Key(a.typ, a.name, a.namespace) == Key(b.typ, b.name, b.namespace)
    ensures a == b
  {
    KeyParses(a.typ, a.name, a.namespace);
    KeyParses(b.typ, b.name, b.namespace);
  }

  lemma KeySlashes(a: ConfigKey)
    ensures Text.Occurrences(Key(a.typ, a.name, a.namespace), '/')
         == Text.Occurrences(a.typ, '/') + Text.Occurrences(a.namespace, '/') + Text.Occurrences(a.name, '/') + 2
  {
    var c := '/';
    Text.OccurrencesAppend(a.typ + [c] + a.namespace + [c], a.name, c);
    Text.OccurrencesAppend(a.typ + [c] + a.namespace, [c], c);
    Text.OccurrencesAppend(a.typ + [c], a.namespace, c);
    Text.OccurrencesAppend(a.typ, [c], c);
    assert [c][1..] == "" && Text.Occurrences([c], c) == 1;
  }

  function KeyText(a: ConfigKey): string {
    Key(a.typ, a.name, a.namespace)
  }

  lemma CutAtSlash(s: string) returns (before: string, after: string)
    requires '/' in s
    ensures s == before + ['/'] + after
  {
    var i :| 0 <= i < |s| && s[i] == '/';
    before, after := s[..i], s[i + 1..];
  }

  /** A slash in the namespace or the name can move between them: another object of the type has the key. */
  lemma MoveSlash(a: ConfigKey) returns (b: ConfigKey)
    requires '/' in a.namespace || '/' in a.name
    ensures b != a && b.typ == a.typ && KeyText(b) == KeyText(a)
  {
    var c := ['/'];
    if '/' in a.namespace {
      var x, y := CutAtSlash(a.namespace);
      b := ConfigKey(a.typ, x, y + c + a.name);
      assert KeyText(b) == a.typ + c + (x + c + y) + c + a.name;
    } else {
      var x, y := CutAtSlash(a.name);
      b := ConfigKey(a.typ, a.namespace + c + x, y);
      assert KeyText(b) == a.typ + c + a.namespace + c + (x + c + y);
    }
  }

  lemma MoveTypeSlash(a: ConfigKey) returns (b: ConfigKey)
    requires '/' in a.typ
    ensures b != a && KeyText(b) == KeyText(a)
  {
    var c := ['/'];
    var x, y := CutAtSlash(a.typ);
    b := ConfigKey(x, y + c + a.namespace, a.name);
    assert KeyText(b) == (x + c + y) + c + a.namespace + c + a.name;
  }

  /** A key belongs to one object only exactly when the object's type, namespace and name hold no slash. */
  lemma KeyUnique(a: ConfigKey)
    ensures (forall b: ConfigKey | KeyText(b) == KeyText(a) :: b == a)
       <==> '/' !in a.typ && '/' !in a.namespace && '/' !in a.name
  {
    if '/' in a.typ {
      var b := MoveTypeSlash(a);
    } else if '/' in a.namespace || '/' in a.name {
      var b := MoveSlash(a);
    } else {
      forall b: ConfigKey | KeyText(b) == KeyText(a) ensures b == a {
        KeySlashes(a);
        KeySlashes(b);
        KeyInjective(a, b);
      }
    }
  }

  /** Among the objects of one type, it is enough and needed that the namespace and the name hold none. */
  lemma KeyUniqueInType(a: ConfigKey)
    ensures (forall b: ConfigKey | b.typ == a.typ && KeyText(b) == KeyText(a) :: b == a)
       <==> '/' !in a.namespace && '/' !in a.name
  {
    if '/' in a.namespace || '/' in a.name {
      var b := MoveSlash(a);
    } else {
      forall b: ConfigKey | b.typ == a.typ && KeyText(b) == KeyText(a) ensures b == a {
        KeySlashes(a);
        KeySlashes(b);
        KeyInjectiveInType(a, b);
      }
    }
  }

  /** Keys of one type with slash-free namespaces identify their objects, whatever the type. */
  lemma KeyInjectiveInType(a: ConfigKey, b: ConfigKey)
    requires a.typ == b.typ && KeyText(a) == KeyText(b) && '/' !in a.namespace && '/' !in b.namespace
    ensures a == b
  {
    var front := a.typ + ['/'];
    assert KeyText(a) == front + (a.namespace + ['/'] + a.name);
    assert KeyText(b) == front + (b.namespace + ['/'] + b.name);
    assert KeyText(a)[|front|..] == a.namespace + ['/'] + a.name;
    assert KeyText(b)[|front|..] == b.namespace + ['/'] + b.name;
    CutAtFirst(a.namespace, a.name, '/');
    CutAtFirst(b.namespace, b.name, '/');
  }

  // ---- Descriptors -------------------------------------------------------------------------

  /** The first schema of a type. */
  function SchemaOf(d: Descriptor, typ: string): (r: Option<Schema>)
    ensures r.None? <==> forall i | 0 <= i < |d| :: d[i].typ != typ
    ensures r.Some? ==> exists i | 0 <= i < |d| ::
              d[i] == r.value && d[i].typ == typ && forall j | 0 <= j < i :: d[j].typ != typ
  {
    if d == [] then None
    else if d[0].typ == typ then Some(d[0])
    else
      var r := SchemaOf(d[1..], typ);
      assert r.None? <==> forall i | 1 <= i < |d| :: d[i].typ != typ by {
        assert forall i | 1 <= i < |d| :: d[i] == d[1..][i - 1];
      }
      assert r.Some? ==> exists i | 0 <= i < |d| ::
          d[i] == r.value && d[i].typ == typ && forall j | 0 <= j < i :: d[j].typ != typ by {
        if r.Some? {
          var i :| 0 <= i < |d[1..]| && d[1..][i] == r.value && forall j | 0 <= j < i :: d[1..][j].typ != typ;
          assert d[i + 1] == r.value;
          forall j | 0 <= j < i + 1 ensures d[j].typ != typ {
            assert j > 0 ==> d[j] == d[1..][j - 1];
          }
        }
      }
      r
  }

  /** Descriptor.GetByType: the search loop. */
  method GetByType(d: Descriptor, name: string) returns (schema: Schema, ok: bool)
    ensures SchemaOf(d, name) == if ok then Some(schema) else None
  {
    for i := 0 to |d|
      invariant SchemaOf(d, name) == SchemaOf(d[i..], name)
    {
      if d[i].typ == name {
        return d[i], true;
      }
      assert d[i..][1..] == d[i + 1..];
    }
    return Schema("", "", "", None), false;
  }

  /** The REST resource a type is stored under. */
  function ResourceOf(d: Descriptor, typ: string): Option<string> {
    match SchemaOf(d, typ)
    case None => None
    case Some(schema) => Some(ResourceName(schema.plural))
  }

  /** Plurals stay distinct after dash removal. */
  ghost predicate NonAliasing(d: Descriptor) {
    forall t, u :: ResourceOf(d, t).Some? && ResourceOf(d, t) == ResourceOf(d, u) ==> t == u
  }

  // ---- Validation and conversion of specs --------------------------------------------------

  /** Schema.Validate. Nothing here compares the message's type with the schema's. */
  function Validate(reg: Registry, schema: Schema, spec: Spec): Verdict {
    if !IsDNS1123Label(schema.typ) then Reject
    else if !IsDNS1123Label(schema.plural) then Reject
    else if schema.messageName !in reg then Reject
    else
      match schema.additionalValidate
      case None => Pass
      case Some(check) => check(spec)
  }

  /** Type and plural are DNS labels, and the message type is linked. */
  predicate WellNamed(reg: Registry, schema: Schema) {
    IsLabel(schema.typ) && IsLabel(schema.plural) && schema.messageName in reg
  }

  /** What the type's own validation says of a spec; without one, nothing is refused. */
  function OwnCheck(schema: Schema, spec: Spec): Verdict {
    if schema.additionalValidate.Some? then schema.additionalValidate.value(spec) else Pass
  }

  /** A misnamed schema refuses everything; otherwise the type's own validation decides. */
  lemma ValidateOutcome(reg: Registry, schema: Schema, spec: Spec)
    ensures Validate(reg, schema, spec) == Pass <==> WellNamed(reg, schema) && OwnCheck(schema, spec) == Pass
    ensures Validate(reg, schema, spec) == Panic <==> WellNamed(reg, schema) && OwnCheck(schema, spec) == Panic
    ensures Validate(reg, schema, spec) == Reject <==> !WellNamed(reg, schema) || OwnCheck(schema, spec) == Reject
  {
    PatternIsLabel(schema.typ);
    PatternIsLabel(schema.plural);
  }

  /** ToJSONMap: the message is written by its own type's fields, whatever the schema says. */
  function ToJSONMap(reg: Registry, spec: Spec): Result<map<string, Json>, Error>
    requires WellTyped(reg, spec)
  {
    match spec
    case None => Err(BadSpec(NilMessage))
    case Some(m) => Ok(Encode(reg[m.typ], m.body))
  }

  /** FromJSONMap: the document is read by the schema's message type. */
  function FromJSONMap(reg: Registry, schema: Schema, data: Json): (r: Result<Message, Error>)
    ensures r.Ok? ==> r.value.typ == schema.messageName && WellTyped(reg, Some(r.value))
  {
    if schema.messageName !in reg then Err(BadSpec(UnknownMessageType))
    else if data.Null? || data.Object? then
      (match Decode(reg[schema.messageName], if data.Null? then map[] else data.members)
       case Err(e) => Err(BadSpec(e))
       case Ok(body) => Ok(Message(schema.messageName, body)))
    else Err(BadSpec(WrongShape))
  }

  /** A spec as a map is read exactly when its message type is linked and it fits it. */
  lemma SpecReads(reg: Registry, schema: Schema, data: Json)
    requires WellFormedRegistry(reg)
    ensures FromJSONMap(reg, schema, data).Ok? <==> SpecFits(reg, schema, data)
    ensures SpecFits(reg, schema, data) ==>
              var m := FromJSONMap(reg, schema, data).value;
              m.typ == schema.messageName && Encode(reg[m.typ], m.body) == Canonical(reg[m.typ], MembersOf(data))
  {
    if schema.messageName in reg && (data.Null? || data.Object?) {
      DecodesIffFits(reg[schema.messageName], MembersOf(data));
      if SpecFits(reg, schema, data) {
        ReencodesCanonically(reg[schema.messageName], MembersOf(data));
      }
    }
  }

  /** The spec the data is read as, if it is. */
  function SpecIn(reg: Registry, schema: Schema, data: Json): Spec {
    match FromJSONMap(reg, schema, data)
    case Ok(m) => Some(m)
    case Err(_) => None
  }

  function MembersOf(data: Json): map<string, Json> {
    if data.Object? then data.members else map[]
  }

  /** The message type is linked, and the data is missing or an object that fits it. */
  predicate SpecFits(reg: Registry, schema: Schema, data: Json) {
    && schema.messageName in reg && (data.Null? || data.Object?)
    && Fits(reg[schema.messageName], MembersOf(data))
  }

  /** A spec comes back from its JSON exactly when it has the schema's message type. */
  lemma SpecRoundTrip(reg: Registry, schema: Schema, spec: Spec)
    requires WellFormedRegistry(reg) && WellTyped(reg, spec) && spec.Some?
    ensures FromJSONMap(reg, schema, Object(ToJSONMap(reg, spec).value)) == Ok(spec.value)
       <==> spec.value.typ == schema.messageName
  {
    if spec.value.typ == schema.messageName {
      DecodeEncode(reg[spec.value.typ], spec.value.body);
    }
  }
}
