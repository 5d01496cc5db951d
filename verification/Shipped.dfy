/** The shipped configuration types, and the script run over a client for them and an empty server. */
module Shipped {
  import opened Codec
  import StoreContract
  import Wrappers
  import opened Names
  import opened Labels
  import opened Config
  import opened Server
  import opened Conversion
  import Operations
  import Text
  import opened Templates
  import opened Client
  import opened BrokerStore
  import opened ConfigStore
  import opened Refinement
  import opened Mock
  import opened Osb
  import opened MapInvariant

  const TEXT_TRIPLE: seq<Field> :=
    [Field("name", StringKind), Field("id", StringKind), Field("description", StringKind)]

  /** The service class message: its deployment and its catalog entry. */
  const CLASS_FIELDS: seq<Field> :=
    [Field("deployment", MessageKind([Field("instance", StringKind)])), Field("entry", MessageKind(TEXT_TRIPLE))]

  /** The service plan message: its catalog plan and the keys of the services it belongs to. */
  const PLAN_FIELDS: seq<Field> :=
    [Field("plan", MessageKind(TEXT_TRIPLE)), Field("services", StringsKind)]

  const REGISTRY: Registry :=
    map[SERVICE_CLASS.messageName := CLASS_FIELDS,
        SERVICE_PLAN.messageName := PLAN_FIELDS,
        FAKE_MESSAGE := FAKE_FIELDS]

  /** The broker's types and the test type. */
  const TYPES: Descriptor := [SERVICE_CLASS, SERVICE_PLAN, FAKE_CONFIG]

  // ---- What the catalog shows of a stored spec ------------------------------------------------

  /** The text of a member of a JSON object, empty when there is none. */
  function TextOf(j: Json, name: string): string {
    if j.Object? && Member(j.members, name).Text? then Member(j.members, name).text else ""
  }

  lemma TwoDecoded(f: Field, g: Field, members: map<string, Json>, body: seq<Value>)
    requires DecodeFields([f, g], members) == Wrappers.Ok(body)
    ensures |body| == 2
    ensures DecodeValue(f.kind, Member(members, f.name)) == Wrappers.Ok(body[0])
    ensures DecodeValue(g.kind, Member(members, g.name)) == Wrappers.Ok(body[1])
  {
    assert [f, g][1..] == [g] && [g][1..] == [];
    assert DecodeFields([], members) == Wrappers.Ok([]);
    assert DecodeFields([g], members).Ok?;
  }

  lemma TripleDecoded(members: map<string, Json>, body: seq<Value>)
    requires DecodeFields(TEXT_TRIPLE, members) == Wrappers.Ok(body)
    ensures TextAt(body, 0) == TextOf(Object(members), "name")
    ensures TextAt(body, 1) == TextOf(Object(members), "id")
    ensures TextAt(body, 2) == TextOf(Object(members), "description")
  {
    var f, g, h := TEXT_TRIPLE[0], TEXT_TRIPLE[1], TEXT_TRIPLE[2];
    assert TEXT_TRIPLE[1..] == [g, h];
    var tail := DecodeFields([g, h], members).value;
    TwoDecoded(g, h, members, tail);
    assert body == [body[0]] + tail;
    assert DecodeValue(f.kind, Member(members, f.name)) == Wrappers.Ok(body[0]);
  }

  /** A submessage with the three texts shows them; a missing one shows none. */
  lemma TripleShown(j: Json, v: Value)
    requires DecodeValue(MessageKind(TEXT_TRIPLE), j) == Wrappers.Ok(v)
    ensures var body := if v.Nested? then v.body else [];
            && TextAt(body, 0) == TextOf(j, "name")
            && TextAt(body, 1) == TextOf(j, "id")
            && TextAt(body, 2) == TextOf(j, "description")
  {
    if j.Object? {
      TripleDecoded(j.members, v.body);
    }
  }

  /** A service shows the name, id and description under "entry" in the stored spec. */
  lemma ServiceShowsEntry(members: map<string, Json>, body: seq<Value>)
    requires Decode(CLASS_FIELDS, members) == Wrappers.Ok(body)
    ensures var entry := Member(members, "entry");
            ServiceOf(body)
            == ServiceRecord(TextOf(entry, "name"), TextOf(entry, "id"), TextOf(entry, "description"), [])
  {
    TwoDecoded(CLASS_FIELDS[0], CLASS_FIELDS[1], members, body);
    TripleShown(Member(members, "entry"), body[1]);
  }

  function TextsOf(j: Json): seq<string> {
    if j.Array? && DecodeStrings(j.items).Ok? then DecodeStrings(j.items).value else []
  }

  /** A plan shows the texts under "plan", and offers the services listed under "services". */
  lemma PlanShowsPlan(members: map<string, Json>, body: seq<Value>)
    requires Decode(PLAN_FIELDS, members) == Wrappers.Ok(body)
    ensures var plan := Member(members, "plan");
            NewServicePlan(body) == ServicePlan(TextOf(plan, "name"), TextOf(plan, "id"), TextOf(plan, "description"))
    ensures ServicesOf(body) == TextsOf(Member(members, "services"))
  {
    TwoDecoded(PLAN_FIELDS[0], PLAN_FIELDS[1], members, body);
    TripleShown(Member(members, "plan"), body[0]);
  }

  // ---- The shipped types ---------------------------------------------------------------------

  lemma TwoFields(a: Field, b: Field)
    requires a.name != b.name
    requires a.kind.MessageKind? || a.kind.MessagesKind? ==> WellFormed(a.kind.fields)
    requires b.kind.MessageKind? || b.kind.MessagesKind? ==> WellFormed(b.kind.fields)
    ensures WellFormed([a, b])
  {
    assert [a, b][1..] == [b] && [b][1..] == [];
    assert FieldNames([b]) == {b.name};
    assert WellFormed([b]);
  }

  lemma RegistryWellFormed()
    ensures WellFormedRegistry(REGISTRY)
  {
    var name, id, text := TEXT_TRIPLE[0], TEXT_TRIPLE[1], TEXT_TRIPLE[2];
    assert TEXT_TRIPLE[1..] == [id, text];
    assert FieldNames([id, text]) == {id.name, text.name} by {
      assert [id, text][1..] == [text] && [text][1..] == [];
    }
    TwoFields(id, text);
    assert WellFormed(TEXT_TRIPLE);
    var instance := CLASS_FIELDS[0].kind.fields;
    assert instance[1..] == [];
    assert WellFormed(instance);
    TwoFields(CLASS_FIELDS[0], CLASS_FIELDS[1]);
    TwoFields(PLAN_FIELDS[0], PLAN_FIELDS[1]);
    var pair := FAKE_FIELDS[1].kind.fields;
    TwoFields(pair[0], pair[1]);
    TwoFields(FAKE_FIELDS[0], FAKE_FIELDS[1]);
  }

  lemma {:induction false} JoinedLength(a: string, b: string)
    requires '-' !in a && '-' !in b
    ensures |ResourceName(a + ['-'] + b)| == |a| + |b|
  {
    var s := a + ['-'] + b;
    if a == "" {
      assert s[1..] == b;
      ResourceNameFixed(b);
    } else {
      JoinedLength(a[1..], b);
      assert s[1..] == a[1..] + ['-'] + b;
    }
  }

  lemma PluralLength(schema: Schema, a: string, b: string)
    requires '-' !in a && '-' !in b && schema.plural == a + ['-'] + b
    ensures |ResourceName(schema.plural)| == |a| + |b|
  {
    JoinedLength(a, b);
  }

  lemma FirstSchema(schema: Schema, rest: Descriptor, t: string)
    ensures SchemaOf([schema] + rest, t) == if schema.typ == t then Wrappers.Some(schema) else SchemaOf(rest, t)
  {
    assert ([schema] + rest)[1..] == rest;
  }

  lemma TypeNames(t: string)
    ensures SchemaOf(TYPES, t) ==
            if t == SERVICE_CLASS.typ then Wrappers.Some(SERVICE_CLASS)
            else if t == SERVICE_PLAN.typ then Wrappers.Some(SERVICE_PLAN)
            else if t == FAKE_CONFIG.typ then Wrappers.Some(FAKE_CONFIG)
            else Wrappers.None
  {
    FirstSchema(SERVICE_CLASS, [SERVICE_PLAN, FAKE_CONFIG], t);
    FirstSchema(SERVICE_PLAN, [FAKE_CONFIG], t);
    FirstSchema(FAKE_CONFIG, [], t);
    assert TYPES == [SERVICE_CLASS] + [SERVICE_PLAN, FAKE_CONFIG];
    assert [SERVICE_PLAN, FAKE_CONFIG] == [SERVICE_PLAN] + [FAKE_CONFIG] && [FAKE_CONFIG] == [FAKE_CONFIG] + [];
  }

  lemma ClassPlural()
    ensures |ResourceName(SERVICE_CLASS.plural)| == 14
  {
    PluralLength(SERVICE_CLASS, "service", "classes");
  }

  lemma PlanPlural()
    ensures |ResourceName(SERVICE_PLAN.plural)| == 12
  {
    PluralLength(SERVICE_PLAN, "service", "plans");
  }

  lemma FakePlural()
    ensures |ResourceName(FAKE_CONFIG.plural)| == 11
  {
    PluralLength(FAKE_CONFIG, "fake", "configs");
  }

  /** The shipped plurals stay distinct after dash removal. */
  lemma TypesDoNotAlias()
    ensures NonAliasing(TYPES)
  {
    ClassPlural();
    PlanPlural();
    FakePlural();
    forall t, u | ResourceOf(TYPES, t).Some? && ResourceOf(TYPES, t) == ResourceOf(TYPES, u)
      ensures t == u
    {
      TypeNames(t);
      TypeNames(u);
    }
  }

  /** Clients of the shipped types keep the store contract in every run with matching messages. */
  lemma ShippedRefines()
    ensures Refines(REGISTRY, TYPES)
  {
    RegistryWellFormed();
    TypesDoNotAlias();
    SeparateIsNonAliasing(REGISTRY, TYPES);
    RefinementIsSeparation(REGISTRY, TYPES);
  }

  /** The script's type is shipped. */
  lemma ScriptTypes()
    ensures KnowsFake(REGISTRY, TYPES)
  {
    TypeNames(FAKE_CONFIG.typ);
  }

  // ---- A write that cannot be read back --------------------------------------------------------

  /** The fields of a service class message, deployed on an instance. */
  function ClassBody(instance: string): seq<Value> {
    [Nested([Str(instance)]), Absent]
  }

  /** A service plan entry that carries a service class message. */
  function MismatchedPlan(name: string, namespace: string, instance: string): Entry {
    Entry(Meta(SERVICE_PLAN.typ, name, namespace, "", map[], map[], ""),
          Wrappers.Some(Message(SERVICE_CLASS.messageName, ClassBody(instance))))
  }

  lemma ClassBodyTyped(instance: string)
    ensures HasType(CLASS_FIELDS, ClassBody(instance))
    ensures "deployment" in Encode(CLASS_FIELDS, ClassBody(instance))
  {
    var body, deployment, entry := ClassBody(instance), CLASS_FIELDS[0], CLASS_FIELDS[1];
    assert CLASS_FIELDS[1..] == [entry] && [entry][1..] == [];
    assert body[1..] == [Absent] && [Absent][1..] == [];
    assert deployment.kind.fields[1..] == [] && body[0].body[1..] == [];
    assert HasKind(deployment.kind, body[0]);
    assert HasType([entry], body[1..]);
    assert EncodeValue(deployment.kind, body[0]).Some?;
  }

  /** A service plan message has no such field. */
  lemma PlansHaveNoDeployment()
    ensures "deployment" !in FieldNames(PLAN_FIELDS)
  {
    var plan, services := PLAN_FIELDS[0], PLAN_FIELDS[1];
    assert PLAN_FIELDS[1..] == [services] && [services][1..] == [];
    assert FieldNames([services]) == {services.name};
  }

  lemma PlanLabels()
    ensures IsDNS1123Label(SERVICE_PLAN.typ) && IsDNS1123Label(SERVICE_PLAN.plural)
  {
    var typ, plural := SERVICE_PLAN.typ, SERVICE_PLAN.plural;
    assert IsLabel(typ) && IsLabel(plural);
    PatternIsLabel(typ);
    PatternIsLabel(plural);
  }

  lemma PlanValidates(spec: Spec)
    ensures Validate(REGISTRY, SERVICE_PLAN, spec) == Pass
  {
    PlanLabels();
    var schema := SERVICE_PLAN;
    assert schema.messageName in REGISTRY && schema.additionalValidate.None?;
  }

  lemma PlanIsCreated(s: State, entry: Entry)
    requires entry.meta.typ == SERVICE_PLAN.typ && entry.spec.Some? && WellTyped(REGISTRY, entry.spec)
    requires Operations.PathOf(SERVICE_PLAN, entry.meta.namespace, entry.meta.name) !in s.objects
    ensures var p := Operations.PathOf(SERVICE_PLAN, entry.meta.namespace, entry.meta.name);
            var (s', r) := Operations.Create(REGISTRY, TYPES, s, entry);
            s' == Accept(s, p, ConvertConfig(REGISTRY, entry).value) && r.Ok?
  {
    TypeNames(entry.meta.typ);
    PlanValidates(entry.spec);
  }

  /** What is sent for the mismatched entry is no service plan. */
  lemma MismatchedDoesNotDecode(name: string, namespace: string, instance: string, revision: string)
    ensures WellTyped(REGISTRY, MismatchedPlan(name, namespace, instance).spec)
    ensures var body := ConvertConfig(REGISTRY, MismatchedPlan(name, namespace, instance)).value;
            ConvertObject(REGISTRY, SERVICE_PLAN, Stamp(body, revision)).Err?
  {
    ClassBodyTyped(instance);
    PlansHaveNoDeployment();
  }

  /** Once an object of the type does not decode, Get does not find it and no plan is seen. */
  lemma HiddenPlans(s: State, name: string, namespace: string)
    requires var p := Operations.PathOf(SERVICE_PLAN, namespace, name);
             p in s.objects && ConvertObject(REGISTRY, SERVICE_PLAN, s.objects[p]).Err?
    ensures Operations.Get(REGISTRY, TYPES, s, SERVICE_PLAN.typ, name, namespace) == Wrappers.None
    ensures forall m | Reads(REGISTRY, TYPES, s, SERVICE_PLAN, m) :: m == map[]
  {
    TypeNames(SERVICE_PLAN.typ);
    var p := Operations.PathOf(SERVICE_PLAN, namespace, name);
    forall m | Reads(REGISTRY, TYPES, s, SERVICE_PLAN, m) ensures m == map[] {
      UndecodableEmpties(REGISTRY, TYPES, s, SERVICE_PLAN, m, p);
    }
  }

  /**
   Validation does not compare message types: one creation of a service plan that carries a service
   class message is accepted in any state where its name is free. It can then not be read back,
   and it empties the service plans of every reader.
   */
  lemma OneCreationHidesAllPlans(s: State, name: string, namespace: string, instance: string)
    requires Operations.PathOf(SERVICE_PLAN, namespace, name) !in s.objects
    ensures WellTyped(REGISTRY, MismatchedPlan(name, namespace, instance).spec)
    ensures var (s', r) := Operations.Create(REGISTRY, TYPES, s, MismatchedPlan(name, namespace, instance));
            && r.Ok?
            && Operations.Get(REGISTRY, TYPES, s', SERVICE_PLAN.typ, name, namespace) == Wrappers.None
            && forall m | Reads(REGISTRY, TYPES, s', SERVICE_PLAN, m) :: m == map[]
  {
    var entry := MismatchedPlan(name, namespace, instance);
    MismatchedDoesNotDecode(name, namespace, instance, Text.Decimal(s.issued));
    PlanIsCreated(s, entry);
    HiddenPlans(Operations.Create(REGISTRY, TYPES, s, entry).0, name, namespace);
  }

  /** Every shipped type has its templates. */
  lemma ShippedAreKnown(types: Descriptor, known: KnownTypes)
    requires types == TYPES && known.Keys == {"service-class", "service-plan", "fake-config"}
    ensures forall i | 0 <= i < |types| :: types[i].typ in known
  {
    forall i | 0 <= i < |types| ensures types[i].typ in known.Keys {
      assert types[i] == SERVICE_CLASS || types[i] == SERVICE_PLAN || types[i] == FAKE_CONFIG;
    }
  }

  /** A client for the shipped types over a new server. */
  method NewClient() returns (client: Client)
    ensures fresh(client) && fresh(client.server) && client.Valid()
    ensures client.registry == REGISTRY && client.descriptor == TYPES
    ensures client.server.Now() == State(map[], 0)
  {
    var known := MakeKnownTypes();
    var server := new ApiServer();
    var types := TYPES;
    ShippedAreKnown(types, known);
    var cl := Client.NewClient(REGISTRY, types, known, server);
    client := cl;
  }

  /** The client seen through the store contract. */
  method NewStore() returns (store: ConfigStore)
    ensures fresh(store) && fresh(store.client.server) && Ready(store) && store.abs == StoreContract.Store(map[], {})
  {
    var client := NewClient();
    RegistryWellFormed();
    TypesDoNotAlias();
    SeparateIsNonAliasing(REGISTRY, TYPES);
    ScriptTypes();
    store := new ConfigStore(client);
  }

  /** TestStoreInvariant: a new client for the shipped types passes the script on an empty server. */
  method TestStoreInvariant(namespace: string, n: nat) returns (errors: int)
    ensures errors == 0
  {
    var store := NewStore();
    ghost var w;
    errors, w := CheckMapInvariant(store, namespace, n);
  }
}
