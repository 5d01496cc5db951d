/** What holds of everything stored, and what readers may therefore rely on. */
module Invariants {
  import opened Wrappers
  import opened Config
  import opened Server
  import opened Conversion
  import opened Runs
  import opened StoreContract
  import opened Refinement
  import Operations
  import Text

  /** The object carries the name and namespace of its path. */
  predicate NamedAt(p: Path, obj: KubeObject) {
    obj.meta.name == p.name && obj.meta.namespace == p.namespace
  }

  ghost predicate Named(s: State) {
    forall p | p in s.objects :: NamedAt(p, s.objects[p])
  }

  /** No operation of any client, with any message, puts an object under another's name. */
  lemma AfterKeepsNamed(reg: Registry, d: Descriptor, s: State, op: Op)
    requires OpTyped(reg, op) && Named(s)
    ensures Named(After(reg, d, s, op))
  {
    var s' := After(reg, d, s, op);
    if op.Delete? {
      assert forall p | p in s'.objects :: s'.objects[p] == s.objects[p];
    }
  }

  /** In every state reached by any clients whatever, every object carries the name of its path. */
  lemma {:induction false} AlwaysNamed(reg: Registry, states: seq<State>, events: seq<Event>, i: nat)
    requires IsRun(reg, states, events) && i < |states| && Named(states[0])
    ensures Named(states[i])
  {
    if i > 0 {
      AlwaysNamed(reg, states, events, i - 1);
      assert StepAt(reg, states, events, i - 1);
      AfterKeepsNamed(reg, events[i - 1].client, states[i - 1], events[i - 1].op);
    }
  }

  /** The object carries the name of its path, decodes, and passes its schema's validation. */
  predicate ObjectOk(reg: Registry, schema: Schema, p: Path, obj: KubeObject) {
    && NamedAt(p, obj)
    && ConvertObject(reg, schema, obj).Ok?
    && Validate(reg, schema, ConvertObject(reg, schema, obj).value.spec) == Pass
  }

  /** Every object under the resource of a type is a valid object of the type. */
  ghost predicate StoredOk(reg: Registry, d: Descriptor, s: State) {
    forall p, t | p in s.objects && ResourceOf(d, t) == Some(p.resource) ::
      ObjectOk(reg, SchemaOf(d, t).value, p, s.objects[p])
  }

  /** What another descriptor keeps under a resource of this one, it keeps under the same schema. */
  ghost predicate Agrees(d: Descriptor, other: Descriptor) {
    forall t, u | ResourceOf(other, t).Some? && ResourceOf(d, u) == ResourceOf(other, t) ::
      SchemaOf(d, u) == SchemaOf(other, t)
  }

  /** A descriptor agrees with itself exactly when its plurals stay distinct after dash removal. */
  lemma AgreesWithItself(d: Descriptor)
    ensures Agrees(d, d) <==> NonAliasing(d)
  {
    if Agrees(d, d) {
      forall t, u | ResourceOf(d, t).Some? && ResourceOf(d, t) == ResourceOf(d, u) ensures t == u {
        assert SchemaOf(d, t).value.typ == t && SchemaOf(d, u).value.typ == u;
      }
    }
  }

  lemma AcceptKeepsStored(reg: Registry, d: Descriptor, other: Descriptor, s: State, entry: Entry)
    requires WellFormedRegistry(reg) && Agrees(d, other) && StoredOk(reg, d, s)
    requires WellTyped(reg, entry.spec) && Matching(other, Create(entry)) && Acceptable(reg, other, entry)
    ensures StoredOk(reg, d, Accept(s, Located(other, KeyOf(entry)).value, ConvertConfig(reg, entry).value))
  {
    var p, body := Located(other, KeyOf(entry)).value, ConvertConfig(reg, entry).value;
    var s' := Accept(s, p, body);
    forall q, t | q in s'.objects && ResourceOf(d, t) == Some(q.resource)
      ensures ObjectOk(reg, SchemaOf(d, t).value, q, s'.objects[q])
    {
      if q == p {
        assert SchemaOf(d, t) == SchemaOf(other, entry.meta.typ);
        AdmittedReads(reg, other, entry, Text.Decimal(s.issued));
      } else {
        assert q in s.objects;
      }
    }
  }

  /** No operation of a client that agrees with the descriptor spoils what is stored. */
  lemma AfterKeepsStored(reg: Registry, d: Descriptor, other: Descriptor, s: State, op: Op)
    requires WellFormedRegistry(reg) && Agrees(d, other) && StoredOk(reg, d, s)
    requires OpTyped(reg, op) && Matching(other, op)
    ensures StoredOk(reg, d, After(reg, other, s, op))
  {
    if After(reg, other, s, op) != s && (op.Create? || op.Update?) {
      AcceptKeepsStored(reg, d, other, s, op.entry);
    }
  }

  /**
   In every reachable state every stored object decodes and validates, when all writes go through
   clients with matching message types whose descriptors agree on the resources they share.
   */
  lemma {:induction false} AlwaysStoredOk(reg: Registry, d: Descriptor, states: seq<State>, events: seq<Event>, i: nat)
    requires WellFormedRegistry(reg) && IsRun(reg, states, events) && i < |states|
    requires forall i | 0 <= i < |events| :: Agrees(d, events[i].client) && Matching(events[i].client, events[i].op)
    requires StoredOk(reg, d, states[0])
    ensures StoredOk(reg, d, states[i])
  {
    if i > 0 {
      AlwaysStoredOk(reg, d, states, events, i - 1);
      assert StepAt(reg, states, events, i - 1);
      AfterKeepsStored(reg, d, events[i - 1].client, states[i - 1], events[i - 1].op);
    }
  }

  predicate Decodes(reg: Registry, schema: Schema, obj: KubeObject) {
    ConvertObject(reg, schema, obj).Ok?
  }

  /** The type is known, and every object a listing of it covers decodes. */
  ghost predicate AllDecode(reg: Registry, d: Descriptor, s: State, typ: string, namespace: string) {
    && SchemaOf(d, typ).Some?
    && forall p | p in s.objects && InScope(p, ResourceOf(d, typ).value, namespace) ::
         Decodes(reg, SchemaOf(d, typ).value, s.objects[p])
  }

  /** The objects of an enumeration all decode exactly when all objects in scope do. */
  lemma ItemsCoverScope(reg: Registry, schema: Schema, s: State, resource: string, namespace: string, paths: seq<Path>)
    requires Enumerates(s, resource, namespace, paths)
    ensures (forall i | 0 <= i < |paths| :: Decodes(reg, schema, s.objects[paths[i]]))
       <==> (forall p | p in s.objects && InScope(p, resource, namespace) :: Decodes(reg, schema, s.objects[p]))
  {
    if forall i | 0 <= i < |paths| :: Decodes(reg, schema, s.objects[paths[i]]) {
      forall p | p in s.objects && InScope(p, resource, namespace)
        ensures Decodes(reg, schema, s.objects[p])
      {
        var i :| 0 <= i < |paths| && paths[i] == p;
      }
    }
  }

  /** A listing reports no error exactly when the type is known and everything it covers decodes. */
  lemma ListSucceedsIffAllDecode(reg: Registry, d: Descriptor, s: State, typ: string, namespace: string,
                                 entries: seq<Entry>, errors: seq<Error>)
    requires Operations.List(reg, d, s, typ, namespace, entries, errors)
    ensures errors == [] <==> AllDecode(reg, d, s, typ, namespace)
  {
    if SchemaOf(d, typ).Some? {
      var schema, resource := SchemaOf(d, typ).value, ResourceOf(d, typ).value;
      var paths := Operations.ListedPaths(reg, d, s, typ, namespace, entries, errors);
      var items := ObjectsAt(s, paths);
      Operations.ConvertedOrReported(reg, schema, items);
      assert errors == [] <==> forall i | 0 <= i < |paths| :: Decodes(reg, schema, items[i]);
      ItemsCoverScope(reg, schema, s, resource, namespace, paths);
    }
  }

  /** Over valid objects, a listing of a known type reports no error. */
  lemma ListNeverFails(reg: Registry, d: Descriptor, s: State, typ: string, namespace: string,
                       entries: seq<Entry>, errors: seq<Error>)
    requires StoredOk(reg, d, s) && SchemaOf(d, typ).Some?
    requires Operations.List(reg, d, s, typ, namespace, entries, errors)
    ensures errors == []
  {
    ListSucceedsIffAllDecode(reg, d, s, typ, namespace, entries, errors);
    forall p | p in s.objects && InScope(p, ResourceOf(d, typ).value, namespace)
      ensures Decodes(reg, SchemaOf(d, typ).value, s.objects[p])
    {
      assert ObjectOk(reg, SchemaOf(d, typ).value, p, s.objects[p]);
    }
  }

  /**
   Get finds exactly the entries a listing of the type shows, whether the listing reports errors or
   not, in every state whose objects carry the names of their paths.
   */
  lemma GetFindsWhatListShows(reg: Registry, d: Descriptor, s: State, typ: string, scope: string,
                              entries: seq<Entry>, errors: seq<Error>, e: Entry)
    requires Named(s) && Operations.List(reg, d, s, typ, scope, entries, errors)
    requires e.meta.typ == typ && (scope == "" || e.meta.namespace == scope)
    ensures e in entries <==> Operations.Get(reg, d, s, typ, e.meta.name, e.meta.namespace) == Some(e)
  {
    if SchemaOf(d, typ).Some? {
      var paths := Operations.ListedPaths(reg, d, s, typ, scope, entries, errors);
      if e in entries {
        ListedIsFound(reg, d, s, typ, scope, paths, e);
      } else if Operations.Get(reg, d, s, typ, e.meta.name, e.meta.namespace) == Some(e) {
        FoundIsListed(reg, d, s, typ, scope, paths, e);
      }
    }
  }

  lemma FoundIsListed(reg: Registry, d: Descriptor, s: State, typ: string, scope: string,
                      paths: seq<Path>, e: Entry)
    requires SchemaOf(d, typ).Some? && Enumerates(s, ResourceOf(d, typ).value, scope, paths)
    requires scope == "" || e.meta.namespace == scope
    requires Operations.Get(reg, d, s, typ, e.meta.name, e.meta.namespace) == Some(e)
    ensures e in Operations.Converted(reg, SchemaOf(d, typ).value, ObjectsAt(s, paths))
  {
    var schema := SchemaOf(d, typ).value;
    var p := Operations.PathOf(schema, e.meta.namespace, e.meta.name);
    assert InScope(p, ResourceOf(d, typ).value, scope);
    var i :| 0 <= i < |paths| && paths[i] == p;
    assert ConvertObject(reg, schema, ObjectsAt(s, paths)[i]) == Ok(e);
    Operations.ConvertedMembers(reg, schema, ObjectsAt(s, paths), e);
  }

  lemma ListedIsFound(reg: Registry, d: Descriptor, s: State, typ: string, scope: string,
                      paths: seq<Path>, e: Entry)
    requires Named(s) && SchemaOf(d, typ).Some?
    requires Enumerates(s, ResourceOf(d, typ).value, scope, paths)
    requires e in Operations.Converted(reg, SchemaOf(d, typ).value, ObjectsAt(s, paths))
    ensures Operations.Get(reg, d, s, typ, e.meta.name, e.meta.namespace) == Some(e)
  {
    var schema, objects := SchemaOf(d, typ).value, ObjectsAt(s, paths);
    Operations.ConvertedMembers(reg, schema, objects, e);
    var i :| 0 <= i < |objects| && ConvertObject(reg, schema, objects[i]) == Ok(e);
    assert objects[i] == s.objects[paths[i]];
    NamedReads(reg, schema, paths[i], s.objects[paths[i]], e);
    assert paths[i] == Operations.PathOf(schema, e.meta.namespace, e.meta.name);
  }

  lemma NamedReads(reg: Registry, schema: Schema, p: Path, obj: KubeObject, e: Entry)
    requires NamedAt(p, obj) && ConvertObject(reg, schema, obj) == Ok(e)
    ensures e.meta.name == p.name && e.meta.namespace == p.namespace
  {
  }

  /**
   An entry that a successful write has stored can be read back as written exactly when its
   message has the type its schema names; validation does not check this.
   */
  lemma WrittenIsReadable(reg: Registry, d: Descriptor, s: State, entry: Entry, creating: bool)
    requires WellFormedRegistry(reg) && WellTyped(reg, entry.spec)
    requires var (_, r) :=
               if creating then Operations.Create(reg, d, s, entry) else Operations.Update(reg, d, s, entry);
             r.Ok?
    ensures SchemaOf(d, entry.meta.typ).Some? && entry.spec.Some?
    ensures var (s', r) :=
              if creating then Operations.Create(reg, d, s, entry) else Operations.Update(reg, d, s, entry);
            Operations.Get(reg, d, s', entry.meta.typ, entry.meta.name, entry.meta.namespace)
            == Some(Kept(entry, r.value))
            <==> entry.spec.value.typ == SchemaOf(d, entry.meta.typ).value.messageName
  {
    ConversionRoundTrip(reg, SchemaOf(d, entry.meta.typ).value, entry);
  }
}
