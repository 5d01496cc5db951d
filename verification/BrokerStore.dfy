/** The typed view of the store: service classes and plans by key. */
module BrokerStore {
  import opened Wrappers
  import opened Codec
  import opened Config
  import opened Server
  import opened Counting
  import opened Conversion
  import opened Client
  import opened Invariants
  import Operations

  const SERVICE_CLASS := Schema("service-class", "service-classes", "istio.broker.v1.config.ServiceClass", None)
  const SERVICE_PLAN := Schema("service-plan", "service-plans", "istio.broker.v1.config.ServicePlan", None)

  /** The fields of a message that has been type-asserted. */
  type Body = seq<Value>

  /** GetServices: the second field of a plan message; nil-safe like every generated getter. */
  function ServicesOf(plan: Body): seq<string> {
    if |plan| > 1 && plan[1].Strs? then plan[1].strings else []
  }

  predicate IsMessage(e: Entry, messageName: string) {
    e.spec.Some? && e.spec.value.typ == messageName
  }

  /** The map the listing loops build; a later entry with the same key replaces an earlier one. */
  function TypedMap(messageName: string, entries: seq<Entry>): map<string, Body> {
    if entries == [] then map[]
    else
      var n := |entries| - 1;
      var rest := TypedMap(messageName, entries[..n]);
      if IsMessage(entries[n], messageName)
      then rest[EntryKey(entries[n]) := entries[n].spec.value.body]
      else rest
  }

  /** What a typed listing returns: nothing at all when the listing reported any error. */
  function TypedResult(messageName: string, entries: seq<Entry>, errors: seq<Error>): map<string, Body> {
    if errors != [] then map[] else TypedMap(messageName, entries)
  }

  /** A map a typed listing may return in a state. */
  ghost predicate Reads(reg: Registry, d: Descriptor, s: State, schema: Schema, m: map<string, Body>) {
    exists entries, errors ::
      && Operations.List(reg, d, s, schema.typ, "", entries, errors)
      && m == TypedResult(schema.messageName, entries, errors)
  }

  /** The plans that offer a service. */
  function Selection(plans: map<string, Body>, service: string): map<string, Body> {
    map k | k in plans && service in ServicesOf(plans[k]) :: plans[k]
  }

  /** The plans of one listing of a state that offer a service. */
  ghost predicate Selects(reg: Registry, d: Descriptor, s: State, service: string, out: map<string, Body>) {
    exists rs :: Reads(reg, d, s, SERVICE_PLAN, rs) && out == Selection(rs, service)
  }

  lemma SelectedFrom(reg: Registry, d: Descriptor, s: State, service: string, out: map<string, Body>)
    returns (rs: map<string, Body>)
    requires Selects(reg, d, s, service, out)
    ensures Reads(reg, d, s, SERVICE_PLAN, rs) && out == Selection(rs, service)
  {
    rs :| Reads(reg, d, s, SERVICE_PLAN, rs) && out == Selection(rs, service);
  }

  class BrokerConfigStore {
    const store: Client

    constructor (store: Client)
      ensures this.store == store
    {
      this.store := store;
    }

    method ListTyped(schema: Schema) returns (out: map<string, Body>)
      requires store.Valid()
      ensures Reads(store.registry, store.descriptor, store.server.Now(), schema, out)
    {
      var rs, err := store.List(schema.typ, "");
      if err != [] {
        out := map[];
      } else {
        out := FillTyped(schema.messageName, rs);
      }
      assert out == TypedResult(schema.messageName, rs, err);
    }

    /** The loop of ServiceClasses and ServicePlans. */
    static method FillTyped(messageName: string, rs: seq<Entry>) returns (out: map<string, Body>)
      ensures out == TypedMap(messageName, rs)
    {
      out := map[];
      for i := 0 to |rs|
        invariant out == TypedMap(messageName, rs[..i])
      {
        assert rs[..i + 1][..i] == rs[..i];
        if IsMessage(rs[i], messageName) {
          out := out[EntryKey(rs[i]) := rs[i].spec.value.body];
        }
      }
      assert rs[..|rs|] == rs;
    }

    method ServiceClasses() returns (out: map<string, Body>)
      requires store.Valid()
      ensures Reads(store.registry, store.descriptor, store.server.Now(), SERVICE_CLASS, out)
    {
      out := ListTyped(SERVICE_CLASS);
    }

    method ServicePlans() returns (out: map<string, Body>)
      requires store.Valid()
      ensures Reads(store.registry, store.descriptor, store.server.Now(), SERVICE_PLAN, out)
    {
      out := ListTyped(SERVICE_PLAN);
    }

    method ServicePlansByService(service: string) returns (out: map<string, Body>)
      requires store.Valid()
      ensures Selects(store.registry, store.descriptor, store.server.Now(), service, out)
    {
      var rs := ServicePlans();
      out := SelectPlans(rs, service);
    }

    /** Walks the plans in any order, keeping those that offer the service. */
    static method SelectPlans(plans: map<string, Body>, service: string) returns (out: map<string, Body>)
      ensures out == Selection(plans, service)
    {
      out := map[];
      var left := plans.Keys;
      while left != {}
        invariant left <= plans.Keys
        invariant out == map k | k in plans && k !in left && service in ServicesOf(plans[k]) :: plans[k]
        decreases left
      {
        var k :| k in left;
        left := left - {k};
        var offers := Offers(ServicesOf(plans[k]), service);
        if offers {
          out := out[k := plans[k]];
        }
      }
    }

    /** Walks a plan's services up to the first that matches. */
    static method Offers(services: seq<string>, service: string) returns (found: bool)
      ensures found <==> service in services
    {
      for i := 0 to |services|
        invariant service !in services[..i]
      {
        if services[i] == service {
          return true;
        }
      }
      assert services == services[..|services|];
      return false;
    }
  }

  // ---- One map entry for each listed object ------------------------------------------------

  /** Keys that identify their entries: no slash in a type or a namespace, no entry twice. */
  predicate WellKeyed(entries: seq<Entry>) {
    && (forall i | 0 <= i < |entries| :: '/' !in entries[i].meta.typ && '/' !in entries[i].meta.namespace)
    && (forall i, j | 0 <= i < j < |entries| :: KeyTriple(entries[i]) != KeyTriple(entries[j]))
  }

  function KeyTriple(e: Entry): ConfigKey {
    ConfigKey(e.meta.typ, e.meta.namespace, e.meta.name)
  }

  function CountTyped(messageName: string, entries: seq<Entry>): nat {
    if entries == [] then 0
    else
      var n := |entries| - 1;
      CountTyped(messageName, entries[..n]) + if IsMessage(entries[n], messageName) then 1 else 0
  }

  /** The entry is of the message type and has the key. */
  predicate IsUnder(messageName: string, e: Entry, k: string) {
    IsMessage(e, messageName) && EntryKey(e) == k
  }

  /** The keys of the map are those of the entries of the message type; its values are theirs. */
  lemma {:induction false} TypedMapKeys(messageName: string, entries: seq<Entry>)
    ensures forall i | 0 <= i < |entries| && IsMessage(entries[i], messageName) ::
              EntryKey(entries[i]) in TypedMap(messageName, entries)
    ensures forall k | k in TypedMap(messageName, entries) ::
              exists i | 0 <= i < |entries| :: IsUnder(messageName, entries[i], k)
                && TypedMap(messageName, entries)[k] == entries[i].spec.value.body
  {
    if entries != [] {
      var n := |entries| - 1;
      var front, m := entries[..n], TypedMap(messageName, entries);
      TypedMapKeys(messageName, front);
      assert forall i | 0 <= i < n :: entries[i] == front[i];
      forall k | k in m
        ensures exists i | 0 <= i < |entries| ::
                  IsUnder(messageName, entries[i], k) && m[k] == entries[i].spec.value.body
      {
        if IsUnder(messageName, entries[n], k) {
          assert m[k] == entries[n].spec.value.body;
        } else {
          var i :| 0 <= i < n && IsUnder(messageName, front[i], k)
                && TypedMap(messageName, front)[k] == front[i].spec.value.body;
          assert IsUnder(messageName, entries[i], k);
        }
      }
    }
  }

  /**
   The typed map holds exactly one entry for each listed object of the right message type: every
   such object is found under its key, and nothing was overwritten.
   */
  lemma {:induction false} TypedMapFaithful(messageName: string, entries: seq<Entry>)
    requires WellKeyed(entries)
    ensures |TypedMap(messageName, entries)| == CountTyped(messageName, entries)
    ensures forall i | 0 <= i < |entries| && IsMessage(entries[i], messageName) ::
              && EntryKey(entries[i]) in TypedMap(messageName, entries)
              && TypedMap(messageName, entries)[EntryKey(entries[i])] == entries[i].spec.value.body
  {
    if entries != [] {
      var n := |entries| - 1;
      var front, last := entries[..n], entries[n];
      TypedMapFaithful(messageName, front);
      LastKeyIsNew(messageName, entries);
      assert forall i | 0 <= i < n :: entries[i] == front[i];
    }
  }

  lemma LastKeyIsNew(messageName: string, entries: seq<Entry>)
    requires WellKeyed(entries) && entries != []
    ensures var n := |entries| - 1;
            && (forall i | 0 <= i < n :: EntryKey(entries[i]) != EntryKey(entries[n]))
            && EntryKey(entries[n]) !in TypedMap(messageName, entries[..n])
  {
    var n := |entries| - 1;
    forall i | 0 <= i < n ensures EntryKey(entries[i]) != EntryKey(entries[n]) {
      if EntryKey(entries[i]) == EntryKey(entries[n]) {
        KeyInjective(KeyTriple(entries[i]), KeyTriple(entries[n]));
      }
    }
    TypedMapKeys(messageName, entries[..n]);
  }

  /**
   A slash in a namespace or a name lets another object of the type have the same key. The map then
   keeps the one listed last, so that the order of the listing shows.
   */
  lemma SlashedKeysCollide(messageName: string, e: Entry, body: Body) returns (e': Entry)
    requires IsMessage(e, messageName) && body != e.spec.value.body
    requires '/' in e.meta.namespace || '/' in e.meta.name
    ensures e'.meta.typ == e.meta.typ && KeyTriple(e') != KeyTriple(e)
    ensures e'.spec == Some(Message(messageName, body))
    ensures TypedMap(messageName, [e, e']) != TypedMap(messageName, [e', e])
  {
    var k := MoveSlash(KeyTriple(e));
    e' := Entry(e.meta.(namespace := k.namespace, name := k.name), Some(Message(messageName, body)));
    assert KeyTriple(e') == k && EntryKey(e') == KeyText(k) == EntryKey(e);
    LastWins(messageName, [e], e');
    LastWins(messageName, [e'], e);
    assert [e] + [e'] == [e, e'] && [e'] + [e] == [e', e];
  }

  lemma LastWins(messageName: string, front: seq<Entry>, e: Entry)
    requires IsMessage(e, messageName)
    ensures EntryKey(e) in TypedMap(messageName, front + [e])
    ensures TypedMap(messageName, front + [e])[EntryKey(e)] == e.spec.value.body
  {
    assert (front + [e])[..|front|] == front;
  }

  // ---- What a state determines -------------------------------------------------------------

  /** A listing of the type covers the object at the path. */
  predicate Covered(d: Descriptor, s: State, typ: string, p: Path) {
    p in s.objects && ResourceOf(d, typ) == Some(p.resource)
  }

  ghost function CoveredPaths(d: Descriptor, s: State, typ: string): set<Path> {
    set p | p in s.objects && Covered(d, s, typ, p)
  }

  /** The key of the object of a type at a path. */
  function KeyAt(typ: string, p: Path): string {
    Key(typ, p.name, p.namespace)
  }

  /** The message body an object reads as; empty when it does not decode. */
  function BodyAt(reg: Registry, schema: Schema, obj: KubeObject): Body {
    match ConvertObject(reg, schema, obj)
    case Ok(e) => e.spec.value.body
    case Err(_) => []
  }

  /** Objects of the type that share a key read as the same message. */
  ghost predicate KeysAgree(reg: Registry, d: Descriptor, s: State, typ: string) {
    SchemaOf(d, typ).Some? ==>
      forall p, q | Covered(d, s, typ, p) && Covered(d, s, typ, q) && KeyAt(typ, p) == KeyAt(typ, q) ::
        BodyAt(reg, SchemaOf(d, typ).value, s.objects[p]) == BodyAt(reg, SchemaOf(d, typ).value, s.objects[q])
  }

  /** No object lives in a namespace with a slash. */
  ghost predicate SlashFree(s: State) {
    forall p | p in s.objects :: '/' !in p.namespace
  }

  lemma SlashFreeKeys(d: Descriptor, s: State, typ: string, p: Path, q: Path)
    requires SlashFree(s) && Covered(d, s, typ, p) && Covered(d, s, typ, q) && KeyAt(typ, p) == KeyAt(typ, q)
    ensures p == q
  {
    KeyInjectiveInType(ConfigKey(typ, p.namespace, p.name), ConfigKey(typ, q.namespace, q.name));
  }

  /** Where no namespace has a slash, as Kubernetes guarantees, no two objects of a type share a key. */
  lemma SlashFreeAgrees(reg: Registry, d: Descriptor, s: State, typ: string)
    requires SlashFree(s)
    ensures KeysAgree(reg, d, s, typ)
  {
    forall p, q | Covered(d, s, typ, p) && Covered(d, s, typ, q) && KeyAt(typ, p) == KeyAt(typ, q)
      ensures p == q
    {
      SlashFreeKeys(d, s, typ, p, q);
    }
  }

  lemma AllItemsDecode(reg: Registry, d: Descriptor, s: State, typ: string, paths: seq<Path>)
    requires AllDecode(reg, d, s, typ, "") && Enumerates(s, ResourceOf(d, typ).value, "", paths)
    ensures forall i | 0 <= i < |paths| :: Decodes(reg, SchemaOf(d, typ).value, ObjectsAt(s, paths)[i])
  {
    forall i | 0 <= i < |paths| ensures Decodes(reg, SchemaOf(d, typ).value, s.objects[paths[i]]) {
      assert paths[i] in s.objects && InScope(paths[i], ResourceOf(d, typ).value, "");
    }
  }

  /** The entry has the key of the path and the message of the object there. */
  ghost predicate ShowsPath(reg: Registry, d: Descriptor, s: State, typ: string, p: Path, e: Entry)
    requires SchemaOf(d, typ).Some?
  {
    && Covered(d, s, typ, p) && EntryKey(e) == KeyAt(typ, p)
    && e.spec == Some(Message(SchemaOf(d, typ).value.messageName,
                              BodyAt(reg, SchemaOf(d, typ).value, s.objects[p])))
  }

  /** A listing without errors shows each object it covers, path by path. */
  lemma ListedPathByPath(reg: Registry, d: Descriptor, s: State, typ: string, paths: seq<Path>, entries: seq<Entry>)
    requires Named(s) && AllDecode(reg, d, s, typ, "")
    requires Enumerates(s, ResourceOf(d, typ).value, "", paths)
    requires entries == Operations.Converted(reg, SchemaOf(d, typ).value, ObjectsAt(s, paths))
    ensures |entries| == |paths|
    ensures forall i | 0 <= i < |entries| :: ShowsPath(reg, d, s, typ, paths[i], entries[i])
  {
    var schema, objects := SchemaOf(d, typ).value, ObjectsAt(s, paths);
    AllItemsDecode(reg, d, s, typ, paths);
    Operations.ConvertedAll(reg, schema, objects);
    forall i | 0 <= i < |entries| ensures ShowsPath(reg, d, s, typ, paths[i], entries[i]) {
      NamedReads(reg, schema, paths[i], objects[i], entries[i]);
    }
  }

  /**
   A map read from a listing without errors: each object under the resource of the type has its key
   in the map, and each value is the message of an object with its key.
   */
  lemma ReadsObjects(reg: Registry, d: Descriptor, s: State, schema: Schema, m: map<string, Body>)
    requires Named(s) && Reads(reg, d, s, schema, m) && AllDecode(reg, d, s, schema.typ, "")
    requires SchemaOf(d, schema.typ).value.messageName == schema.messageName
    ensures forall p | Covered(d, s, schema.typ, p) :: KeyAt(schema.typ, p) in m
    ensures forall k | k in m :: exists p | Covered(d, s, schema.typ, p) ::
              KeyAt(schema.typ, p) == k && m[k] == BodyAt(reg, SchemaOf(d, schema.typ).value, s.objects[p])
  {
    var typ := schema.typ;
    var entries, errors := ReadFrom(reg, d, s, schema, m);
    ListSucceedsIffAllDecode(reg, d, s, typ, "", entries, errors);
    var paths := Operations.ListedPaths(reg, d, s, typ, "", entries, errors);
    ListedPathByPath(reg, d, s, typ, paths, entries);
    TypedMapKeys(schema.messageName, entries);
    forall p | Covered(d, s, typ, p) ensures KeyAt(typ, p) in m {
      assert InScope(p, ResourceOf(d, typ).value, "");
      var i :| 0 <= i < |paths| && paths[i] == p;
      assert ShowsPath(reg, d, s, typ, paths[i], entries[i]);
    }
    forall k | k in m
      ensures exists p | Covered(d, s, typ, p) ::
                KeyAt(typ, p) == k && m[k] == BodyAt(reg, SchemaOf(d, typ).value, s.objects[p])
    {
      var i :| 0 <= i < |entries| && IsUnder(schema.messageName, entries[i], k)
            && m[k] == entries[i].spec.value.body;
      assert ShowsPath(reg, d, s, typ, paths[i], entries[i]);
    }
  }

  /** A descriptor that gives the type another message type shows nothing of this one. */
  lemma ReadsNothing(reg: Registry, d: Descriptor, s: State, schema: Schema, m: map<string, Body>)
    requires Named(s) && Reads(reg, d, s, schema, m) && AllDecode(reg, d, s, schema.typ, "")
    requires SchemaOf(d, schema.typ).value.messageName != schema.messageName
    ensures m == map[]
  {
    var entries, errors := ReadFrom(reg, d, s, schema, m);
    ListSucceedsIffAllDecode(reg, d, s, schema.typ, "", entries, errors);
    var paths := Operations.ListedPaths(reg, d, s, schema.typ, "", entries, errors);
    ListedPathByPath(reg, d, s, schema.typ, paths, entries);
    TypedMapKeys(schema.messageName, entries);
    forall i | 0 <= i < |entries| ensures !IsMessage(entries[i], schema.messageName) {
      assert ShowsPath(reg, d, s, schema.typ, paths[i], entries[i]);
    }
    assert m.Keys == {};
  }

  /**
   What ServiceClasses and ServicePlans return in a state: one map entry for each object under the
   resource of the type, under the key of its path with the message it decodes to, and nothing else;
   or nothing at all when some object does not decode.
   */
  lemma OneEntryPerObject(reg: Registry, d: Descriptor, s: State, schema: Schema, m: map<string, Body>)
    requires SchemaOf(d, schema.typ) == Some(schema) && Named(s) && SlashFree(s) && Reads(reg, d, s, schema, m)
    ensures if AllDecode(reg, d, s, schema.typ, "") then
              && (forall p | Covered(d, s, schema.typ, p) ::
                    KeyAt(schema.typ, p) in m && m[KeyAt(schema.typ, p)] == BodyAt(reg, schema, s.objects[p]))
              && (forall k | k in m :: exists p | Covered(d, s, schema.typ, p) :: KeyAt(schema.typ, p) == k)
              && |m| == |CoveredPaths(d, s, schema.typ)|
            else m == map[]
  {
    if AllDecode(reg, d, s, schema.typ, "") {
      ReadsObjects(reg, d, s, schema, m);
      forall p | Covered(d, s, schema.typ, p)
        ensures m[KeyAt(schema.typ, p)] == BodyAt(reg, schema, s.objects[p])
      {
        var q :| Covered(d, s, schema.typ, q) && KeyAt(schema.typ, q) == KeyAt(schema.typ, p)
              && m[KeyAt(schema.typ, p)] == BodyAt(reg, schema, s.objects[q]);
        SlashFreeKeys(d, s, schema.typ, p, q);
      }
      KeysCount(d, s, schema.typ, m.Keys);
    } else {
      FailedListing(reg, d, s, schema, m);
    }
  }

  /** There are as many keys as objects. */
  lemma KeysCount(d: Descriptor, s: State, typ: string, keys: set<string>)
    requires SlashFree(s)
    requires forall p | Covered(d, s, typ, p) :: KeyAt(typ, p) in keys
    requires forall k | k in keys :: exists p | Covered(d, s, typ, p) :: KeyAt(typ, p) == k
    ensures |keys| == |CoveredPaths(d, s, typ)|
  {
    var paths, key := CoveredPaths(d, s, typ), (p: Path) => KeyAt(typ, p);
    forall p, q | p in paths && q in paths && key(p) == key(q) ensures p == q {
      SlashFreeKeys(d, s, typ, p, q);
    }
    forall k | k in keys ensures exists p | p in paths :: key(p) == k {
      var p :| Covered(d, s, typ, p) && KeyAt(typ, p) == k;
      assert p in paths && key(p) == k;
    }
    ImageCount(key, paths, keys);
  }

  ghost predicate Extends(s: State, s': State) {
    forall p: Path | p in s.objects :: p in s'.objects && s'.objects[p] == s.objects[p]
  }

  ghost predicate SubMap(m: map<string, Body>, m': map<string, Body>) {
    forall k | k in m :: k in m' && m'[k] == m[k]
  }

  lemma SubMapBothWays(m: map<string, Body>, m': map<string, Body>)
    requires SubMap(m, m') && SubMap(m', m)
    ensures m == m'
  {
  }

  /** A listing that fails, or of an unknown type, gives the empty map. */
  lemma FailedListing(reg: Registry, d: Descriptor, s: State, schema: Schema, m: map<string, Body>)
    requires Reads(reg, d, s, schema, m) && !AllDecode(reg, d, s, schema.typ, "")
    ensures m == map[]
  {
    var entries, errors := ReadFrom(reg, d, s, schema, m);
    ListSucceedsIffAllDecode(reg, d, s, schema.typ, "", entries, errors);
  }

  lemma EarlierIsNamed(s: State, s': State)
    requires Extends(s, s') && Named(s')
    ensures Named(s)
  {
    forall p | p in s.objects ensures NamedAt(p, s.objects[p]) {
      assert p in s'.objects && s'.objects[p] == s.objects[p];
    }
  }

  /** When objects are only added and the later listing reports no error, no earlier one does. */
  lemma EarlierDecodes(reg: Registry, d: Descriptor, s: State, s': State, typ: string)
    requires Extends(s, s') && AllDecode(reg, d, s', typ, "")
    ensures AllDecode(reg, d, s, typ, "")
  {
    var schema, resource := SchemaOf(d, typ).value, ResourceOf(d, typ).value;
    forall p | p in s.objects && InScope(p, resource, "") ensures Decodes(reg, schema, s.objects[p]) {
      assert p in s'.objects && s'.objects[p] == s.objects[p];
    }
  }

  /**
   When objects are only added the typed map only grows, as long as the later listing reports no
   error and objects that share a key agree; when the listing does report an error, the map is empty.
   */
  lemma ReadsGrow(reg: Registry, d: Descriptor, s: State, s': State, schema: Schema,
                  m: map<string, Body>, m': map<string, Body>)
    requires Named(s') && Extends(s, s') && Reads(reg, d, s, schema, m) && Reads(reg, d, s', schema, m')
    ensures if AllDecode(reg, d, s', schema.typ, "")
            then KeysAgree(reg, d, s', schema.typ) ==> SubMap(m, m')
            else m' == map[]
  {
    if !AllDecode(reg, d, s', schema.typ, "") {
      FailedListing(reg, d, s', schema, m');
    } else if KeysAgree(reg, d, s', schema.typ) {
      EarlierIsNamed(s, s');
      EarlierDecodes(reg, d, s, s', schema.typ);
      if SchemaOf(d, schema.typ).value.messageName == schema.messageName {
        AgreedReadsGrow(reg, d, s, s', schema, m, m');
      } else {
        ReadsNothing(reg, d, s, schema, m);
      }
    }
  }

  lemma AgreedReadsGrow(reg: Registry, d: Descriptor, s: State, s': State, schema: Schema,
                        m: map<string, Body>, m': map<string, Body>)
    requires Named(s) && Named(s') && Extends(s, s') && Reads(reg, d, s, schema, m) && Reads(reg, d, s', schema, m')
    requires AllDecode(reg, d, s, schema.typ, "") && AllDecode(reg, d, s', schema.typ, "")
    requires SchemaOf(d, schema.typ).value.messageName == schema.messageName && KeysAgree(reg, d, s', schema.typ)
    ensures SubMap(m, m')
  {
    var typ, found := schema.typ, SchemaOf(d, schema.typ).value;
    ReadsObjects(reg, d, s, schema, m);
    ReadsObjects(reg, d, s', schema, m');
    forall k | k in m ensures k in m' && m'[k] == m[k] {
      var p :| Covered(d, s, typ, p) && KeyAt(typ, p) == k && m[k] == BodyAt(reg, found, s.objects[p]);
      assert Covered(d, s', typ, p) && s'.objects[p] == s.objects[p];
      var q :| Covered(d, s', typ, q) && KeyAt(typ, q) == k && m'[k] == BodyAt(reg, found, s'.objects[q]);
    }
  }

  lemma ReadFrom(reg: Registry, d: Descriptor, s: State, schema: Schema, m: map<string, Body>)
    returns (entries: seq<Entry>, errors: seq<Error>)
    requires Reads(reg, d, s, schema, m)
    ensures Operations.List(reg, d, s, schema.typ, "", entries, errors)
    ensures m == TypedResult(schema.messageName, entries, errors)
  {
    entries, errors :| Operations.List(reg, d, s, schema.typ, "", entries, errors)
                    && m == TypedResult(schema.messageName, entries, errors);
  }

  /** A state has one typed map when its listing fails, or when objects that share a key agree. */
  lemma ReadsDetermined(reg: Registry, d: Descriptor, s: State, schema: Schema,
                        m: map<string, Body>, m': map<string, Body>)
    requires Named(s) && (AllDecode(reg, d, s, schema.typ, "") ==> KeysAgree(reg, d, s, schema.typ))
    requires Reads(reg, d, s, schema, m) && Reads(reg, d, s, schema, m')
    ensures m == m'
  {
    ReadsGrow(reg, d, s, s, schema, m, m');
    ReadsGrow(reg, d, s, s, schema, m', m);
    if AllDecode(reg, d, s, schema.typ, "") {
      SubMapBothWays(m, m');
    }
  }

  /** A listing that comes to the object at a path last gives the map its message. */
  lemma ReadsWithLast(reg: Registry, d: Descriptor, s: State, schema: Schema, p: Path)
    returns (m: map<string, Body>)
    requires SchemaOf(d, schema.typ) == Some(schema) && Named(s) && AllDecode(reg, d, s, schema.typ, "")
    requires Covered(d, s, schema.typ, p)
    ensures Reads(reg, d, s, schema, m) && KeyAt(schema.typ, p) in m
    ensures m[KeyAt(schema.typ, p)] == BodyAt(reg, schema, s.objects[p])
  {
    var front := SomeOrder(CoveredPaths(d, s, schema.typ) - {p});
    var paths := front + [p];
    assert Enumerates(s, p.resource, "", paths);
    var items := ObjectsAt(s, paths);
    var entries, errors := Operations.Converted(reg, schema, items), Operations.Failures(reg, schema, items);
    assert Operations.List(reg, d, s, schema.typ, "", entries, errors);
    ListSucceedsIffAllDecode(reg, d, s, schema.typ, "", entries, errors);
    m := TypedResult(schema.messageName, entries, errors);
    ListedPathByPath(reg, d, s, schema.typ, paths, entries);
    var n := |entries| - 1;
    assert ShowsPath(reg, d, s, schema.typ, paths[n], entries[n]) && paths[n] == p;
    assert entries == entries[..n] + [entries[n]];
    LastWins(schema.messageName, entries[..n], entries[n]);
  }

  /**
   The order of a listing never shows in the typed map exactly when the listing fails, or no two
   objects of the type share a key and read as different messages.
   */
  lemma ReadsUniqueIffKeysAgree(reg: Registry, d: Descriptor, s: State, schema: Schema)
    requires SchemaOf(d, schema.typ) == Some(schema) && Named(s)
    ensures (forall m, m' | Reads(reg, d, s, schema, m) && Reads(reg, d, s, schema, m') :: m == m')
       <==> (AllDecode(reg, d, s, schema.typ, "") ==> KeysAgree(reg, d, s, schema.typ))
  {
    var typ := schema.typ;
    if AllDecode(reg, d, s, typ, "") && !KeysAgree(reg, d, s, typ) {
      var p, q :| Covered(d, s, typ, p) && Covered(d, s, typ, q) && KeyAt(typ, p) == KeyAt(typ, q)
               && BodyAt(reg, schema, s.objects[p]) != BodyAt(reg, schema, s.objects[q]);
      var m := ReadsWithLast(reg, d, s, schema, p);
      var m' := ReadsWithLast(reg, d, s, schema, q);
      assert m != m';
    } else {
      forall m, m' | Reads(reg, d, s, schema, m) && Reads(reg, d, s, schema, m') ensures m == m' {
        ReadsDetermined(reg, d, s, schema, m, m');
      }
    }
  }

  /**
   A typed listing is all or nothing: when every object of the type decodes it is built from all of
   them, and one that does not decode empties it.
   */
  lemma AllOrNothing(reg: Registry, d: Descriptor, s: State, schema: Schema, m: map<string, Body>)
    returns (paths: seq<Path>)
    requires SchemaOf(d, schema.typ) == Some(schema) && Reads(reg, d, s, schema, m)
    ensures Enumerates(s, ResourceOf(d, schema.typ).value, "", paths)
    ensures if AllDecode(reg, d, s, schema.typ, "")
            then m == TypedMap(schema.messageName, Operations.Converted(reg, schema, ObjectsAt(s, paths)))
                 && |Operations.Converted(reg, schema, ObjectsAt(s, paths))| == |paths|
            else m == map[]
  {
    var entries, errors := ReadFrom(reg, d, s, schema, m);
    paths := Operations.ListedPaths(reg, d, s, schema.typ, "", entries, errors);
    Operations.ConvertedOrReported(reg, schema, ObjectsAt(s, paths));
    ListSucceedsIffAllDecode(reg, d, s, schema.typ, "", entries, errors);
  }

  /** One object of the type that does not decode empties the typed listing. */
  lemma UndecodableEmpties(reg: Registry, d: Descriptor, s: State, schema: Schema, m: map<string, Body>, p: Path)
    requires SchemaOf(d, schema.typ) == Some(schema) && Reads(reg, d, s, schema, m)
    requires p in s.objects && ResourceOf(d, schema.typ) == Some(p.resource)
    requires ConvertObject(reg, schema, s.objects[p]).Err?
    ensures m == map[]
  {
    assert InScope(p, p.resource, "") && !Decodes(reg, schema, s.objects[p]);
    FailedListing(reg, d, s, schema, m);
  }
}
