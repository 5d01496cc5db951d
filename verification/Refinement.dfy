/** The client over the API server keeps the store contract. */
module Refinement {
  import opened Wrappers
  import opened Text
  import opened Config
  import opened Server
  import opened Conversion
  import opened Runs
  import opened StoreContract
  import Operations

  function Located(d: Descriptor, k: ConfigKey): Option<Path> {
    Operations.PathIn(d, k.typ, k.namespace, k.name)
  }

  /** No other type is kept under the resource of the type. */
  ghost predicate Alone(d: Descriptor, typ: string) {
    forall u | ResourceOf(d, u).Some? && ResourceOf(d, u) == ResourceOf(d, typ) :: u == typ
  }

  /** The store takes some entry of the type whose message is of the schema's type. */
  ghost predicate Writable(reg: Registry, d: Descriptor, typ: string) {
    exists e: Entry :: CanWrite(reg, d, typ, e)
  }

  ghost predicate CanWrite(reg: Registry, d: Descriptor, typ: string, e: Entry) {
    e.meta.typ == typ && WellTyped(reg, e.spec) && Matching(d, Create(e)) && Acceptable(reg, d, e)
  }

  /** A type that can be written shares its resource with no other. */
  ghost predicate Separate(reg: Registry, d: Descriptor) {
    forall typ | Writable(reg, d, typ) :: Alone(d, typ)
  }

  /** Plurals that stay distinct after dash removal separate types, and are needed where all can be written. */
  lemma SeparateIsNonAliasing(reg: Registry, d: Descriptor)
    ensures NonAliasing(d) ==> Separate(reg, d)
    ensures (forall typ | SchemaOf(d, typ).Some? :: Writable(reg, d, typ)) && Separate(reg, d) ==> NonAliasing(d)
  {
    forall typ | Writable(reg, d, typ) ensures SchemaOf(d, typ).Some? {
    }
    if (forall typ | SchemaOf(d, typ).Some? :: Writable(reg, d, typ)) && Separate(reg, d) {
      forall t, u | ResourceOf(d, t).Some? && ResourceOf(d, t) == ResourceOf(d, u) ensures t == u {
        assert Alone(d, t);
      }
    }
  }

  /** The path of a type that is alone on its resource is the place of one key. */
  lemma LocatedInjective(d: Descriptor, k: ConfigKey, l: ConfigKey)
    requires Alone(d, k.typ) && Located(d, k).Some? && Located(d, k) == Located(d, l)
    ensures k == l
  {
    assert ResourceOf(d, k.typ) == ResourceOf(d, l.typ);
  }

  function Revisions(issued: nat): set<string> {
    set i | 0 <= i < issued :: Decimal(i)
  }

  /** The server holds, under a place that is only this key's, an object that reads as the store's entry. */
  ghost predicate Holds(reg: Registry, d: Descriptor, s: State, a: Store, k: ConfigKey)
    requires k in a.entries && Located(d, k).Some? && Located(d, k).value in s.objects
  {
    && KeyOf(a.entries[k]) == k && Alone(d, k.typ)
    && a.entries[k].meta.resourceVersion != ""
    && ConvertObject(reg, SchemaOf(d, k.typ).value, s.objects[Located(d, k).value]) == Ok(a.entries[k])
  }

  ghost predicate Simulates(reg: Registry, d: Descriptor, s: State, a: Store) {
    && (forall k {:trigger Located(d, k)} ::
          k in a.entries <==> Located(d, k).Some? && Located(d, k).value in s.objects)
    && (forall k {:trigger Holds(reg, d, s, a, k)} | k in a.entries :: Holds(reg, d, s, a, k))
    && a.revisions == Revisions(s.issued)
  }

  /** The message of an entry is of the type its schema names. */
  predicate Matching(d: Descriptor, op: Op) {
    op.Create? || op.Update? ==>
      SchemaOf(d, op.entry.meta.typ).Some? && op.entry.spec.Some? ==>
        op.entry.spec.value.typ == SchemaOf(d, op.entry.meta.typ).value.messageName
  }

  lemma EmptySimulates(reg: Registry, d: Descriptor)
    ensures Simulates(reg, d, State(map[], 0), Store(map[], {}))
  {
  }

  lemma NewRevision(issued: nat)
    ensures Decimal(issued) !in Revisions(issued)
    ensures Revisions(issued + 1) == Revisions(issued) + {Decimal(issued)}
  {
    if Decimal(issued) in Revisions(issued) {
      var i :| 0 <= i < issued && Decimal(i) == Decimal(issued);
      DecimalInjective(i, issued);
    }
  }

  /** Accepting a body under the place of a key is writing the entry it reads as. */
  lemma AcceptSimulates(reg: Registry, d: Descriptor, s: State, a: Store, k: ConfigKey, body: KubeObject, e: Entry)
    requires Simulates(reg, d, s, a) && Alone(d, k.typ) && Located(d, k).Some? && KeyOf(e) == k
    requires e.meta.resourceVersion == Decimal(s.issued)
    requires ConvertObject(reg, SchemaOf(d, k.typ).value, Stamp(body, Decimal(s.issued))) == Ok(e)
    ensures Simulates(reg, d, Accept(s, Located(d, k).value, body),
                      Store(a.entries[k := e], a.revisions + {Decimal(s.issued)}))
  {
    var p := Located(d, k).value;
    var s', a' := Accept(s, p, body), Store(a.entries[k := e], a.revisions + {Decimal(s.issued)});
    NewRevision(s.issued);
    forall l
      ensures l in a'.entries <==> Located(d, l).Some? && Located(d, l).value in s'.objects
      ensures l in a'.entries ==> Holds(reg, d, s', a', l)
    {
      if l != k && Located(d, l) == Some(p) {
        LocatedInjective(d, l, k);
      }
      if l in a.entries {
        assert Holds(reg, d, s, a, l);
      }
    }
  }

  lemma RemoveSimulates(reg: Registry, d: Descriptor, s: State, a: Store, k: ConfigKey)
    requires Simulates(reg, d, s, a) && Alone(d, k.typ) && Located(d, k).Some?
    ensures Simulates(reg, d, s.(objects := s.objects - {Located(d, k).value}), a.(entries := a.entries - {k}))
  {
    var p := Located(d, k).value;
    var s', a' := s.(objects := s.objects - {p}), a.(entries := a.entries - {k});
    forall l
      ensures l in a'.entries <==> Located(d, l).Some? && Located(d, l).value in s'.objects
      ensures l in a'.entries ==> Holds(reg, d, s', a', l)
    {
      if l != k && Located(d, l) == Some(p) {
        LocatedInjective(d, l, k);
      }
      if l in a.entries {
        assert Holds(reg, d, s, a, l);
      }
    }
  }

  /** What an acceptable entry is sent as, and what comes back under a revision. */
  lemma AdmittedReads(reg: Registry, d: Descriptor, entry: Entry, revision: string)
    requires WellFormedRegistry(reg) && WellTyped(reg, entry.spec) && Matching(d, Create(entry))
    requires Acceptable(reg, d, entry)
    ensures ConvertConfig(reg, entry).Ok?
    ensures ConvertObject(reg, SchemaOf(d, entry.meta.typ).value, Stamp(ConvertConfig(reg, entry).value, revision))
         == Ok(Kept(entry, revision))
  {
    var schema := SchemaOf(d, entry.meta.typ).value;
    ConversionRoundTrip(reg, schema, entry);
    StampedConversion(reg, schema, ConvertConfig(reg, entry).value, revision);
  }

  lemma CreateRefines(reg: Registry, d: Descriptor, s: State, a: Store, entry: Entry)
    requires WellFormedRegistry(reg) && Separate(reg, d) && Simulates(reg, d, s, a)
    requires WellTyped(reg, entry.spec) && Matching(d, Create(entry))
    ensures var (s', r) := Operations.Create(reg, d, s, entry);
            && Allows(reg, d, a, Create(entry), Wrote(r))
            && Simulates(reg, d, s', Next(a, Create(entry), Wrote(r)))
  {
    NewRevision(s.issued);
    var k := KeyOf(entry);
    assert Located(d, k).Some? <==> SchemaOf(d, entry.meta.typ).Some?;
    if CreateAllowed(reg, d, a, entry) {
      assert CanWrite(reg, d, k.typ, entry);
      AdmittedReads(reg, d, entry, Decimal(s.issued));
      AcceptSimulates(reg, d, s, a, k, ConvertConfig(reg, entry).value, Kept(entry, Decimal(s.issued)));
    }
  }

  lemma UpdateRefines(reg: Registry, d: Descriptor, s: State, a: Store, entry: Entry)
    requires WellFormedRegistry(reg) && Separate(reg, d) && Simulates(reg, d, s, a)
    requires WellTyped(reg, entry.spec) && Matching(d, Update(entry))
    ensures var (s', r) := Operations.Update(reg, d, s, entry);
            && Allows(reg, d, a, Update(entry), Wrote(r))
            && Simulates(reg, d, s', Next(a, Update(entry), Wrote(r)))
  {
    NewRevision(s.issued);
    var k := KeyOf(entry);
    assert Located(d, k).Some? <==> SchemaOf(d, entry.meta.typ).Some?;
    if k in a.entries {
      assert Holds(reg, d, s, a, k);
    }
    if UpdateAllowed(reg, d, a, entry) {
      assert CanWrite(reg, d, k.typ, entry);
      AdmittedReads(reg, d, entry, Decimal(s.issued));
      AcceptSimulates(reg, d, s, a, k, ConvertConfig(reg, entry).value, Kept(entry, Decimal(s.issued)));
    }
  }

  lemma DeleteRefines(reg: Registry, d: Descriptor, s: State, a: Store, typ: string, name: string, namespace: string)
    requires Simulates(reg, d, s, a)
    ensures var (s', r) := Operations.Delete(d, s, typ, name, namespace);
            && Allows(reg, d, a, Delete(typ, name, namespace), Deleted(r))
            && Simulates(reg, d, s', Next(a, Delete(typ, name, namespace), Deleted(r)))
  {
    var k := ConfigKey(typ, namespace, name);
    assert Located(d, k).Some? <==> SchemaOf(d, typ).Some?;
    if k in a.entries {
      assert Holds(reg, d, s, a, k);
      RemoveSimulates(reg, d, s, a, k);
    }
  }

  lemma GetRefines(reg: Registry, d: Descriptor, s: State, a: Store, typ: string, name: string, namespace: string)
    requires Simulates(reg, d, s, a)
    ensures Allows(reg, d, a, Get(typ, name, namespace), Got(Operations.Get(reg, d, s, typ, name, namespace)))
  {
    var k := ConfigKey(typ, namespace, name);
    assert Located(d, k).Some? <==> SchemaOf(d, typ).Some?;
    if k in a.entries {
      assert Holds(reg, d, s, a, k);
    }
  }

  lemma ListRefines(reg: Registry, d: Descriptor, s: State, a: Store, typ: string, namespace: string,
                    entries: seq<Entry>, errors: seq<Error>)
    requires Simulates(reg, d, s, a) && Operations.List(reg, d, s, typ, namespace, entries, errors)
    ensures Allows(reg, d, a, List(typ, namespace), Listed(entries, errors))
  {
    match SchemaOf(d, typ)
    case None =>
      forall k | k in a.entries ensures k.typ != typ {
        assert Located(d, k).Some?;
      }
    case Some(schema) =>
      var paths := Operations.ListedPaths(reg, d, s, typ, namespace, entries, errors);
      ItemsAreEntries(reg, d, s, a, typ, schema, namespace, paths);
      Operations.ConvertedAll(reg, schema, ObjectsAt(s, paths));
      EnumerationListsExactly(reg, d, s, a, typ, namespace, paths, entries);
  }

  function KeyAt(typ: string, p: Path): ConfigKey {
    ConfigKey(typ, p.namespace, p.name)
  }

  /** Everything a listing finds under a type's resource is an entry of the type. */
  lemma ItemsAreEntries(reg: Registry, d: Descriptor, s: State, a: Store, typ: string, schema: Schema,
                        namespace: string, paths: seq<Path>)
    requires Simulates(reg, d, s, a) && SchemaOf(d, typ) == Some(schema)
    requires Enumerates(s, ResourceOf(d, typ).value, namespace, paths)
    ensures forall i | 0 <= i < |paths| ::
              && KeyAt(typ, paths[i]) in a.entries
              && ConvertObject(reg, schema, ObjectsAt(s, paths)[i]) == Ok(a.entries[KeyAt(typ, paths[i])])
  {
    forall i | 0 <= i < |paths|
      ensures KeyAt(typ, paths[i]) in a.entries
      ensures ConvertObject(reg, schema, s.objects[paths[i]]) == Ok(a.entries[KeyAt(typ, paths[i])])
    {
      var k := KeyAt(typ, paths[i]);
      assert Located(d, k) == Some(paths[i]);
      assert Holds(reg, d, s, a, k);
    }
  }

  lemma EnumerationListsExactly(reg: Registry, d: Descriptor, s: State, a: Store, typ: string,
                                namespace: string, paths: seq<Path>, entries: seq<Entry>)
    requires Simulates(reg, d, s, a) && SchemaOf(d, typ).Some?
    requires Enumerates(s, ResourceOf(d, typ).value, namespace, paths)
    requires |entries| == |paths|
    requires forall i | 0 <= i < |paths| ::
               KeyAt(typ, paths[i]) in a.entries && entries[i] == a.entries[KeyAt(typ, paths[i])]
    ensures ListsExactly(a, typ, namespace, entries)
  {
    forall i | 0 <= i < |entries| ensures KeyOf(entries[i]) == KeyAt(typ, paths[i]) {
      assert Holds(reg, d, s, a, KeyAt(typ, paths[i]));
    }
    forall i, j | 0 <= i < j < |entries| ensures KeyOf(entries[i]) != KeyOf(entries[j]) {
      assert paths[i] != paths[j] && paths[i].resource == paths[j].resource;
    }
    forall k | k in a.entries && InList(k, typ, namespace) ensures a.entries[k] in entries {
      var p := Located(d, k).value;
      assert p in s.objects && InScope(p, ResourceOf(d, typ).value, namespace);
      assert p in paths;
      var i :| 0 <= i < |paths| && paths[i] == p;
      assert KeyAt(typ, p) == k && entries[i] == a.entries[k];
    }
  }

  /** Each step of the client is a step the contract allows. */
  lemma StepRefines(reg: Registry, d: Descriptor, s: State, e: Event, s': State, a: Store)
    requires WellFormedRegistry(reg) && Separate(reg, d) && Simulates(reg, d, s, a)
    requires Step(reg, s, e, s') && e.client == d && Matching(d, e.op)
    ensures Allows(reg, d, a, e.op, e.reply)
    ensures Simulates(reg, d, s', Next(a, e.op, e.reply))
  {
    match e.op
    case Get(typ, name, namespace) => GetRefines(reg, d, s, a, typ, name, namespace);
    case List(typ, namespace) => ListRefines(reg, d, s, a, typ, namespace, e.reply.entries, e.reply.errors);
    case Create(entry) => CreateRefines(reg, d, s, a, entry);
    case Update(entry) => UpdateRefines(reg, d, s, a, entry);
    case Delete(typ, name, namespace) => DeleteRefines(reg, d, s, a, typ, name, namespace);
  }

  /** A run of the contract alone. */
  ghost predicate IsStoreRun(reg: Registry, d: Descriptor, stores: seq<Store>, events: seq<Event>) {
    && |stores| == |events| + 1
    && forall i {:trigger events[i]} | 0 <= i < |events| ::
         Allows(reg, d, stores[i], events[i].op, events[i].reply)
         && stores[i + 1] == Next(stores[i], events[i].op, events[i].reply)
  }

  /** The store after the first i events. */
  function StoreAt(a: Store, events: seq<Event>, i: nat): Store
    requires i <= |events|
  {
    if i == 0 then a else Next(StoreAt(a, events, i - 1), events[i - 1].op, events[i - 1].reply)
  }

  lemma EventRefines(reg: Registry, d: Descriptor, states: seq<State>, events: seq<Event>, i: nat, a: Store)
    requires WellFormedRegistry(reg) && Separate(reg, d) && IsRun(reg, states, events) && i < |events|
    requires events[i].client == d && Matching(d, events[i].op)
    requires Simulates(reg, d, states[i], StoreAt(a, events, i))
    ensures Allows(reg, d, StoreAt(a, events, i), events[i].op, events[i].reply)
    ensures Simulates(reg, d, states[i + 1], StoreAt(a, events, i + 1))
  {
    assert StepAt(reg, states, events, i);
    StepRefines(reg, d, states[i], events[i], states[i + 1], StoreAt(a, events, i));
  }

  lemma {:induction false} SimulatesAlong(
    reg: Registry, d: Descriptor, states: seq<State>, events: seq<Event>, a: Store, i: nat)
    requires WellFormedRegistry(reg) && Separate(reg, d) && IsRun(reg, states, events) && i < |states|
    requires forall i | 0 <= i < |events| :: events[i].client == d && Matching(d, events[i].op)
    requires Simulates(reg, d, states[0], a)
    ensures Simulates(reg, d, states[i], StoreAt(a, events, i))
  {
    if i > 0 {
      SimulatesAlong(reg, d, states, events, a, i - 1);
      EventRefines(reg, d, states, events, i - 1, a);
    }
  }

  /**
   Every run of any number of clients sharing a descriptor over the API server, with all their
   replies, is a run of the abstract store, provided writers supply the message type of the
   schema and no type that can be written shares its resource.
   */
  lemma ClientRefinesStore(reg: Registry, d: Descriptor, states: seq<State>, events: seq<Event>, a: Store)
    returns (stores: seq<Store>)
    requires WellFormedRegistry(reg) && Separate(reg, d) && IsRun(reg, states, events)
    requires forall i | 0 <= i < |events| :: events[i].client == d && Matching(d, events[i].op)
    requires Simulates(reg, d, states[0], a)
    ensures IsStoreRun(reg, d, stores, events) && stores[0] == a
    ensures forall i | 0 <= i < |states| :: Simulates(reg, d, states[i], stores[i])
  {
    stores := seq(|states|, i requires 0 <= i < |states| => StoreAt(a, events, i));
    forall i | 0 <= i < |states| ensures Simulates(reg, d, states[i], stores[i]) {
      SimulatesAlong(reg, d, states, events, a, i);
    }
    forall i | 0 <= i < |events|
      ensures Allows(reg, d, stores[i], events[i].op, events[i].reply)
      ensures stores[i + 1] == Next(stores[i], events[i].op, events[i].reply)
    {
      EventRefines(reg, d, states, events, i, a);
    }
  }

  // ---- Separation is needed ------------------------------------------------------------------

  /** A run of clients of one descriptor over a new server, with matching messages. */
  ghost predicate IsClientRun(reg: Registry, d: Descriptor, states: seq<State>, events: seq<Event>) {
    && IsRun(reg, states, events) && states[0] == State(map[], 0)
    && forall i | 0 <= i < |events| :: events[i].client == d && Matching(d, events[i].op)
  }

  /** Some run of the new store gives the same replies. */
  ghost predicate HasStoreRun(reg: Registry, d: Descriptor, events: seq<Event>) {
    exists stores: seq<Store> :: IsStoreRun(reg, d, stores, events) && stores[0] == Store(map[], {})
  }

  /** Every run of clients of a descriptor over a new server is a run of a new store. */
  ghost predicate Refines(reg: Registry, d: Descriptor) {
    forall states, events | IsClientRun(reg, d, states, events) :: HasStoreRun(reg, d, events)
  }

  /** A listing of the only object there is shows it or reports it. */
  lemma LoneListing(reg: Registry, d: Descriptor, s: State, u: string, p: Path) returns (e: Event)
    requires s.objects.Keys == {p} && ResourceOf(d, u) == Some(p.resource)
    ensures e.client == d && e.op == List(u, "") && Step(reg, s, e, s)
    ensures e.reply.Listed? && (e.reply.entries != [] || e.reply.errors != [])
  {
    var schema, paths := SchemaOf(d, u).value, [p];
    var items := ObjectsAt(s, paths);
    var entries, errors := Operations.Converted(reg, schema, items), Operations.Failures(reg, schema, items);
    assert Enumerates(s, p.resource, "", paths);
    Operations.ConvertedOrReported(reg, schema, items);
    e := Event(d, List(u, ""), Listed(entries, errors));
  }

  /** The first creation over a new server. */
  lemma FirstCreation(reg: Registry, d: Descriptor, t: string, entry: Entry) returns (e: Event, s: State)
    requires WellFormedRegistry(reg) && CanWrite(reg, d, t, entry)
    ensures e.client == d && e.op == Create(entry) && Step(reg, State(map[], 0), e, s)
    ensures e.reply.Wrote? && e.reply.result.Ok?
    ensures Located(d, KeyOf(entry)).Some? && s.objects.Keys == {Located(d, KeyOf(entry)).value}
  {
    var start := State(map[], 0);
    AdmittedReads(reg, d, entry, Decimal(0));
    s := Operations.Create(reg, d, start, entry).0;
    e := Event(d, Create(entry), Wrote(Operations.Create(reg, d, start, entry).1));
  }

  lemma TwoSteps(reg: Registry, d: Descriptor, s: State, e: Event, e': Event)
    requires Step(reg, State(map[], 0), e, s) && Step(reg, s, e', s)
    requires e.client == d && Matching(d, e.op) && e'.client == d && Matching(d, e'.op)
    ensures IsClientRun(reg, d, [State(map[], 0), s, s], [e, e'])
  {
    var states, events := [State(map[], 0), s, s], [e, e'];
    assert StepAt(reg, states, events, 0) && StepAt(reg, states, events, 1);
  }

  /** A creation through one type, and the listing of another on the same resource. */
  lemma AliasedRun(reg: Registry, d: Descriptor, t: string, u: string, entry: Entry)
    returns (states: seq<State>, events: seq<Event>)
    requires WellFormedRegistry(reg) && CanWrite(reg, d, t, entry)
    requires ResourceOf(d, u).Some? && ResourceOf(d, u) == ResourceOf(d, t)
    ensures IsClientRun(reg, d, states, events) && |events| == 2
    ensures events[0].op == Create(entry) && events[0].reply.Wrote? && events[0].reply.result.Ok?
    ensures events[1].op == List(u, "") && events[1].reply.Listed?
    ensures events[1].reply.entries != [] || events[1].reply.errors != []
  {
    var e, s := FirstCreation(reg, d, t, entry);
    var e' := LoneListing(reg, d, s, u, Located(d, KeyOf(entry)).value);
    TwoSteps(reg, d, s, e, e');
    states, events := [State(map[], 0), s, s], [e, e'];
  }

  lemma NothingOfType(a: Store, u: string, namespace: string, out: seq<Entry>)
    requires forall k | k in a.entries :: k.typ != u
    ensures ListsExactly(a, u, namespace, out) ==> out == []
  {
    if out != [] {
      assert ListsExactly(a, u, namespace, out) ==> InList(KeyOf(out[0]), u, namespace);
    }
  }

  /** After a creation in a new store there is nothing to list for another type, and no error to report. */
  lemma StoreListsNothing(reg: Registry, d: Descriptor, u: string, entry: Entry, created: Reply, listed: Reply)
    requires entry.meta.typ != u && SchemaOf(d, u).Some? && listed != Listed([], [])
    ensures !Allows(reg, d, Next(Store(map[], {}), Create(entry), created), List(u, ""), listed)
  {
    if listed.Listed? {
      NothingOfType(Next(Store(map[], {}), Create(entry), created), u, "", listed.entries);
    }
  }

  lemma NoSuchStoreRun(reg: Registry, d: Descriptor, u: string, entry: Entry, events: seq<Event>)
    requires entry.meta.typ != u && SchemaOf(d, u).Some? && |events| == 2
    requires events[0].op == Create(entry) && events[1].op == List(u, "") && events[1].reply != Listed([], [])
    ensures !HasStoreRun(reg, d, events)
  {
    StoreListsNothing(reg, d, u, entry, events[0].reply, events[1].reply);
    var start := Store(map[], {});
    var next := Next(start, events[0].op, events[0].reply);
    forall stores: seq<Store> | |stores| == 3 && stores[0] == start
      ensures !IsStoreRun(reg, d, stores, events)
    {
      assert stores[0 + 1] == next ==> !Allows(reg, d, stores[1], events[1].op, events[1].reply);
    }
  }

  /**
   The clients of a descriptor keep the store contract, in all runs with matching messages, exactly
   when no type that can be written shares its resource with another.
   */
  lemma RefinementIsSeparation(reg: Registry, d: Descriptor)
    requires WellFormedRegistry(reg)
    ensures Refines(reg, d) <==> Separate(reg, d)
  {
    if Separate(reg, d) {
      forall states, events | IsClientRun(reg, d, states, events) ensures HasStoreRun(reg, d, events) {
        EmptySimulates(reg, d);
        var stores := ClientRefinesStore(reg, d, states, events, Store(map[], {}));
      }
    } else {
      var t :| Writable(reg, d, t) && !Alone(d, t);
      var e :| CanWrite(reg, d, t, e);
      var u :| ResourceOf(d, u).Some? && ResourceOf(d, u) == ResourceOf(d, t) && u != t;
      var states, events := AliasedRun(reg, d, t, u, e);
      NoSuchStoreRun(reg, d, u, e, events);
    }
  }
}
