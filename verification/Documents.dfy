/** The JSON/YAML document form of a configuration entry, as a tree. */
module Documents {
  import opened Wrappers
  import opened Codec
  import opened Config

  /** A document: the metadata in line, and the spec as generic JSON; Null is a nil spec. */
  datatype JSONConfig = JSONConfig(meta: Meta, spec: Json)

  function PutText(members: map<string, Json>, name: string, s: string): map<string, Json> {
    if s == "" then members else members[name := Text(s)]
  }

  function PutTable(members: map<string, Json>, name: string, table: map<string, string>): map<string, Json> {
    if table == map[] then members
    else members[name := Object(map k | k in table :: Text(table[k]))]
  }

  function PutNames(m: Meta): map<string, Json> {
    var out := PutText(map[], "type", m.typ);
    var out := PutText(out, "name", m.name);
    var out := PutText(out, "namespace", m.namespace);
    PutText(out, "istioNamespace", m.istioNamespace)
  }

  /** Writes a document; empty metadata fields and a nil spec are left out. */
  function Marshal(c: JSONConfig): map<string, Json> {
    PutRest(PutNames(c.meta), c, "labels", "annotations", "resourceVersion", "spec")
  }

  function PutRest(out: map<string, Json>, c: JSONConfig,
                   labels: string, annotations: string, version: string, spec: string): map<string, Json>
  {
    var out := PutTable(out, labels, c.meta.labels);
    var out := PutTable(out, annotations, c.meta.annotations);
    var out := PutText(out, version, c.meta.resourceVersion);
    if c.spec == Null then out else out[spec := c.spec]
  }

  function ReadText(members: map<string, Json>, name: string): Result<string, Error> {
    match Member(members, name)
    case Null => Ok("")
    case Text(s) => Ok(s)
    case _ => Err(BadDocument)
  }

  function ReadTable(members: map<string, Json>, name: string): Result<map<string, string>, Error> {
    match Member(members, name)
    case Null => Ok(map[])
    case Object(t) =>
      if forall k | k in t :: t[k].Text? || t[k].Null?
      then Ok(map k | k in t :: if t[k].Text? then t[k].text else "")
      else Err(BadDocument)
    case _ => Err(BadDocument)
  }

  /** Reads a document; members it does not know are ignored. */
  function Unmarshal(members: map<string, Json>): Result<JSONConfig, Error> {
    match (ReadText(members, "type"), ReadText(members, "name"), ReadText(members, "namespace"),
           ReadText(members, "istioNamespace"), ReadTable(members, "labels"),
           ReadTable(members, "annotations"), ReadText(members, "resourceVersion"))
    case (Ok(typ), Ok(name), Ok(namespace), Ok(istio), Ok(labels), Ok(annotations), Ok(version)) =>
      Ok(JSONConfig(Meta(typ, name, namespace, istio, labels, annotations, version), Member(members, "spec")))
    case _ => Err(BadDocument)
  }

  /** Descriptor.ToYAML up to the text. */
  function ToYAML(reg: Registry, d: Descriptor, entry: Entry): Result<Json, Error>
    requires WellTyped(reg, entry.spec)
  {
    if SchemaOf(d, entry.meta.typ).None? then Err(UnrecognizedType)
    else
      match ToJSONMap(reg, entry.spec)
      case Err(e) => Err(e)
      case Ok(spec) => Ok(Object(Marshal(JSONConfig(entry.meta, Object(spec)))))
  }

  /** Descriptor.FromJSON: decodes and validates. */
  function FromJSON(reg: Registry, d: Descriptor, c: JSONConfig): Result<Entry, Error> {
    match SchemaOf(d, c.meta.typ)
    case None => Err(UnrecognizedType)
    case Some(schema) =>
      match FromJSONMap(reg, schema, c.spec)
      case Err(e) => Err(e)
      case Ok(m) =>
        match Validate(reg, schema, Some(m))
        case Reject => Err(Invalid)
        case Panic => Err(Panicked)
        case Pass => Ok(Entry(c.meta, Some(m)))
  }

  /** Descriptor.FromYAML from the tree of the text. */
  function FromYAML(reg: Registry, d: Descriptor, document: Json): Result<Entry, Error> {
    if !document.Null? && !document.Object? then Err(BadDocument)
    else
      match Unmarshal(if document.Null? then map[] else document.members)
      case Err(e) => Err(e)
      case Ok(c) => FromJSON(reg, d, c)
  }

  lemma NamesRead(m: Meta)
    ensures var out := PutNames(m);
            && out.Keys <= {"type", "name", "namespace", "istioNamespace"}
            && ReadText(out, "type") == Ok(m.typ)
            && ReadText(out, "name") == Ok(m.name)
            && ReadText(out, "namespace") == Ok(m.namespace)
            && ReadText(out, "istioNamespace") == Ok(m.istioNamespace)
  {
    DistinctNames();
  }

  lemma RestRead(base: map<string, Json>, c: JSONConfig,
                 labels: string, annotations: string, version: string, spec: string)
    requires labels !in base && annotations !in base && version !in base && spec !in base
    requires labels != annotations && labels != version && labels != spec
    requires annotations != version && annotations != spec && version != spec
    ensures var out := PutRest(base, c, labels, annotations, version, spec);
            && (forall n | n in base :: Member(out, n) == Member(base, n))
            && (forall n | n !in base && n !in {labels, annotations, version, spec} :: n !in out)
            && ReadTable(out, labels) == Ok(c.meta.labels)
            && ReadTable(out, annotations) == Ok(c.meta.annotations)
            && ReadText(out, version) == Ok(c.meta.resourceVersion)
            && Member(out, spec) == c.spec
  {
    TableRoundTrip(c.meta.labels);
    TableRoundTrip(c.meta.annotations);
  }

  lemma TableRoundTrip(table: map<string, string>)
    ensures var t := map k | k in table :: Text(table[k]);
            (map k | k in t :: if t[k].Text? then t[k].text else "") == table
  {
  }

  lemma DistinctNames()
    ensures |"type"| == 4 && |"name"| == 4 && "type"[0] != "name"[0]
    ensures |"namespace"| == 9 && |"istioNamespace"| == 14 && |"labels"| == 6
    ensures |"annotations"| == 11 && |"resourceVersion"| == 15
    ensures |"spec"| == 4 && "spec"[0] != "type"[0] && "spec"[0] != "name"[0]
  {
  }

  /** Reading back what was written gives the document. */
  lemma UnmarshalMarshal(c: JSONConfig)
    ensures Unmarshal(Marshal(c)) == Ok(c)
  {
    DistinctNames();
    var names := PutNames(c.meta);
    NamesRead(c.meta);
    RestRead(names, c, "labels", "annotations", "resourceVersion", "spec");
    forall n | n in {"type", "name", "namespace", "istioNamespace"}
      ensures Member(Marshal(c), n) == Member(names, n)
    {
    }
  }

  /** What it takes for an entry to survive being written and read. */
  predicate Conforms(reg: Registry, d: Descriptor, entry: Entry) {
    && SchemaOf(d, entry.meta.typ).Some?
    && entry.spec.Some?
    && entry.spec.value.typ == SchemaOf(d, entry.meta.typ).value.messageName
    && Validate(reg, SchemaOf(d, entry.meta.typ).value, entry.spec) == Pass
  }

  /**
   An entry comes back from its YAML, with all its metadata, exactly when its type is known, its
   spec has the message type of its schema, and it validates.
   */
  lemma YamlRoundTrip(reg: Registry, d: Descriptor, entry: Entry)
    requires WellFormedRegistry(reg) && WellTyped(reg, entry.spec)
    ensures ToYAML(reg, d, entry).Ok? && FromYAML(reg, d, ToYAML(reg, d, entry).value) == Ok(entry)
       <==> Conforms(reg, d, entry)
  {
    if SchemaOf(d, entry.meta.typ).Some? && entry.spec.Some? {
      var spec := ToJSONMap(reg, entry.spec).value;
      UnmarshalMarshal(JSONConfig(entry.meta, Object(spec)));
      SpecRoundTrip(reg, SchemaOf(d, entry.meta.typ).value, entry.spec);
    }
  }

  // ---- Documents written by hand ---------------------------------------------------------------

  /** Missing or null, or a text. */
  predicate IsText(j: Json) {
    j.Null? || j.Text?
  }

  /** Missing or null, or an object of texts and nulls. */
  predicate IsTable(j: Json) {
    j.Null? || (j.Object? && forall k | k in j.members :: IsText(j.members[k]))
  }

  function TextIn(j: Json): string {
    if j.Text? then j.text else ""
  }

  function TableIn(j: Json): map<string, string> {
    if j.Object? then map k | k in j.members :: TextIn(j.members[k]) else map[]
  }

  /** The metadata members are missing, null or of their shapes. */
  predicate MetadataFits(m: map<string, Json>) {
    && IsText(Member(m, "type")) && IsText(Member(m, "name")) && IsText(Member(m, "namespace"))
    && IsText(Member(m, "istioNamespace")) && IsTable(Member(m, "labels"))
    && IsTable(Member(m, "annotations")) && IsText(Member(m, "resourceVersion"))
  }

  /** The metadata of a document, empty where a member is missing or null. */
  function MetadataIn(m: map<string, Json>): Meta {
    Meta(TextIn(Member(m, "type")), TextIn(Member(m, "name")), TextIn(Member(m, "namespace")),
         TextIn(Member(m, "istioNamespace")), TableIn(Member(m, "labels")),
         TableIn(Member(m, "annotations")), TextIn(Member(m, "resourceVersion")))
  }

  lemma TextReads(m: map<string, Json>, name: string)
    ensures ReadText(m, name) == if IsText(Member(m, name)) then Ok(TextIn(Member(m, name))) else Err(BadDocument)
  {
  }

  lemma TableReads(m: map<string, Json>, name: string)
    ensures ReadTable(m, name) == if IsTable(Member(m, name)) then Ok(TableIn(Member(m, name))) else Err(BadDocument)
  {
    var j := Member(m, name);
    if j.Object? {
      assert IsTable(j) <==> forall k | k in j.members :: j.members[k].Text? || j.members[k].Null?;
      assert (map k | k in j.members :: if j.members[k].Text? then j.members[k].text else "") == TableIn(j);
    }
  }

  /** A document is read exactly when its metadata fits, whatever other members it has. */
  lemma UnmarshalOutcome(m: map<string, Json>)
    ensures Unmarshal(m) ==
            if MetadataFits(m) then Ok(JSONConfig(MetadataIn(m), Member(m, "spec"))) else Err(BadDocument)
  {
    TextReads(m, "type");
    TextReads(m, "name");
    TextReads(m, "namespace");
    TextReads(m, "istioNamespace");
    TableReads(m, "labels");
    TableReads(m, "annotations");
    TextReads(m, "resourceVersion");
  }

  const KNOWN_MEMBERS: set<string> :=
    {"type", "name", "namespace", "istioNamespace", "labels", "annotations", "resourceVersion", "spec"}

  /** Only the eight known members of a document matter. */
  lemma OtherMembersIgnored(reg: Registry, d: Descriptor, m: map<string, Json>, m': map<string, Json>)
    requires forall n | n in KNOWN_MEMBERS :: Member(m, n) == Member(m', n)
    ensures FromYAML(reg, d, Object(m)) == FromYAML(reg, d, Object(m'))
  {
    UnmarshalOutcome(m);
    UnmarshalOutcome(m');
    SameMetadata(m, m');
  }

  lemma SameMetadata(m: map<string, Json>, m': map<string, Json>)
    requires forall n | n in KNOWN_MEMBERS :: Member(m, n) == Member(m', n)
    ensures MetadataFits(m) == MetadataFits(m') && MetadataIn(m) == MetadataIn(m')
    ensures Member(m, "spec") == Member(m', "spec")
  {
    assert "type" in KNOWN_MEMBERS && "name" in KNOWN_MEMBERS && "namespace" in KNOWN_MEMBERS;
    assert "istioNamespace" in KNOWN_MEMBERS && "labels" in KNOWN_MEMBERS && "annotations" in KNOWN_MEMBERS;
    assert "resourceVersion" in KNOWN_MEMBERS && "spec" in KNOWN_MEMBERS;
  }

  /** The same for a document already taken apart, with the refusals of validation told apart. */
  lemma FromJSONOutcome(reg: Registry, d: Descriptor, c: JSONConfig)
    requires WellFormedRegistry(reg)
    ensures var r, found := FromJSON(reg, d, c), SchemaOf(d, c.meta.typ);
            && (r == Err(UnrecognizedType) <==> found.None?)
            && (r == Err(Invalid) <==>
                  && found.Some? && SpecFits(reg, found.value, c.spec)
                  && (!WellNamed(reg, found.value)
                      || OwnCheck(found.value, SpecIn(reg, found.value, c.spec)) == Reject))
            && (r == Err(Panicked) <==>
                  && found.Some? && SpecFits(reg, found.value, c.spec) && WellNamed(reg, found.value)
                  && OwnCheck(found.value, SpecIn(reg, found.value, c.spec)) == Panic)
            && (r.Ok? <==>
                  && found.Some? && SpecFits(reg, found.value, c.spec) && WellNamed(reg, found.value)
                  && OwnCheck(found.value, SpecIn(reg, found.value, c.spec)) == Pass)
            && (r.Ok? ==>
                  && r.value.meta == c.meta && r.value.spec.Some?
                  && r.value.spec.value.typ == found.value.messageName && WellTyped(reg, r.value.spec)
                  && Encode(reg[found.value.messageName], r.value.spec.value.body)
                     == Canonical(reg[found.value.messageName], MembersOf(c.spec)))
  {
    if SchemaOf(d, c.meta.typ).Some? {
      var schema := SchemaOf(d, c.meta.typ).value;
      SpecReads(reg, schema, c.spec);
      if FromJSONMap(reg, schema, c.spec).Ok? {
        ValidateOutcome(reg, schema, Some(FromJSONMap(reg, schema, c.spec).value));
      }
    }
  }

  /**
   Any document is read exactly when its metadata members fit, its type is known, its spec fits the
   message type, and the schema and the message pass validation. The entry then has the metadata of
   the document, and its message is written back as the spec in canonical form.
   */
  lemma FromYAMLOutcome(reg: Registry, d: Descriptor, m: map<string, Json>)
    requires WellFormedRegistry(reg)
    ensures var r, meta, spec := FromYAML(reg, d, Object(m)), MetadataIn(m), Member(m, "spec");
            var found := SchemaOf(d, meta.typ);
            && (r == Err(BadDocument) <==> !MetadataFits(m))
            && (r == Err(UnrecognizedType) <==> MetadataFits(m) && found.None?)
            && (r.Ok? <==>
                  && MetadataFits(m) && found.Some? && SpecFits(reg, found.value, spec) && WellNamed(reg, found.value)
                  && OwnCheck(found.value, SpecIn(reg, found.value, spec)) == Pass)
            && (r.Ok? ==>
                  && r.value.meta == meta && r.value.spec.Some?
                  && r.value.spec.value.typ == found.value.messageName && WellTyped(reg, r.value.spec)
                  && Encode(reg[found.value.messageName], r.value.spec.value.body)
                     == Canonical(reg[found.value.messageName], MembersOf(spec)))
  {
    UnmarshalOutcome(m);
    FromJSONOutcome(reg, d, JSONConfig(MetadataIn(m), Member(m, "spec")));
  }

  /** A null document is read as an empty one; any other that is no object is not read. */
  lemma OtherDocuments(reg: Registry, d: Descriptor, document: Json)
    requires !document.Object?
    ensures FromYAML(reg, d, document) == if document.Null? then FromYAML(reg, d, Object(map[])) else Err(BadDocument)
  {
  }

  // ---- What is written ---------------------------------------------------------------------------

  /** A value that is worth writing: only a spec may be an empty object. */
  predicate IsWritten(j: Json, isSpec: bool) {
    j != Null && j != Text("") && (isSpec || j != Object(map[]))
  }

  lemma NamesWritten(m: Meta)
    ensures forall n | n in PutNames(m) :: IsWritten(PutNames(m)[n], false)
  {
  }

  lemma RestWritten(base: map<string, Json>, c: JSONConfig,
                    labels: string, annotations: string, version: string, spec: string)
    requires c.spec.Null? || c.spec.Object?
    requires forall n | n in base :: IsWritten(base[n], false)
    ensures var out := PutRest(base, c, labels, annotations, version, spec);
            && out.Keys <= base.Keys + {labels, annotations, version, spec}
            && forall n | n in out :: IsWritten(out[n], n == spec)
  {
    if c.meta.labels != map[] {
      TableWritten(c.meta.labels);
    }
    if c.meta.annotations != map[] {
      TableWritten(c.meta.annotations);
    }
  }

  lemma TableWritten(table: map<string, string>)
    requires table != map[]
    ensures (map k | k in table :: Text(table[k])) != map[]
  {
    var k :| k in table;
    assert k in (map k | k in table :: Text(table[k]));
  }

  /** Empty texts and tables and a nil spec are left out; everything else is written, and nothing more. */
  lemma MarshalOutcome(c: JSONConfig)
    requires c.spec.Null? || c.spec.Object?
    ensures var out, m := Marshal(c), c.meta;
            && out.Keys <= KNOWN_MEMBERS && MetadataFits(out) && MetadataIn(out) == m && Member(out, "spec") == c.spec
            && forall n | n in out :: IsWritten(out[n], n == "spec")
  {
    UnmarshalMarshal(c);
    UnmarshalOutcome(Marshal(c));
    NamesWritten(c.meta);
    RestWritten(PutNames(c.meta), c, "labels", "annotations", "resourceVersion", "spec");
  }

  /**
   ToYAML validates nothing: it writes every entry of a known type with a message, as its metadata
   and its message in the JSON of the message's own type.
   */
  lemma ToYAMLOutcome(reg: Registry, d: Descriptor, entry: Entry)
    requires WellTyped(reg, entry.spec)
    ensures var r := ToYAML(reg, d, entry);
            && (SchemaOf(d, entry.meta.typ).None? <==> r == Err(UnrecognizedType))
            && (r.Ok? <==> SchemaOf(d, entry.meta.typ).Some? && entry.spec.Some?)
            && (r.Ok? ==>
                  && r.value.Object? && r.value.members.Keys <= KNOWN_MEMBERS
                  && MetadataFits(r.value.members) && MetadataIn(r.value.members) == entry.meta
                  && Member(r.value.members, "spec")
                     == Object(Encode(reg[entry.spec.value.typ], entry.spec.value.body))
                  && forall n | n in r.value.members :: IsWritten(r.value.members[n], n == "spec"))
  {
    if SchemaOf(d, entry.meta.typ).Some? && entry.spec.Some? {
      MarshalOutcome(JSONConfig(entry.meta, Object(Encode(reg[entry.spec.value.typ], entry.spec.value.body))));
    }
  }
}
