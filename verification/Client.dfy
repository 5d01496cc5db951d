/**
 The REST client that implements the config store: every operation looks its schema up, copies a
 template, makes at most one request and converts what comes back.
 */
module Client {
  import opened Wrappers
  import opened Codec
  import opened Names
  import opened Config
  import opened Server
  import opened Conversion
  import opened Templates
  import Operations

  class Client {
    const registry: Registry
    const descriptor: Descriptor
    const knownTypes: KnownTypes
    const server: ApiServer

    /** Every type of the descriptor has templates, and the templates are untouched. */
    ghost predicate Valid()
      reads TemplateObjects(knownTypes)
    {
      && (forall i | 0 <= i < |descriptor| :: descriptor[i].typ in knownTypes)
      && Pristine(knownTypes)
    }

    constructor (registry: Registry, descriptor: Descriptor, knownTypes: KnownTypes, server: ApiServer)
      ensures this.registry == registry && this.descriptor == descriptor
      ensures this.knownTypes == knownTypes && this.server == server
    {
      this.registry, this.descriptor := registry, descriptor;
      this.knownTypes, this.server := knownTypes, server;
    }

    /** NewClient: refuses a descriptor with a type it has no template for. */
    static method NewClient(registry: Registry, descriptor: Descriptor, knownTypes: KnownTypes, server: ApiServer)
      returns (cl: Client?)
      requires Pristine(knownTypes)
      ensures cl != null <==> forall i | 0 <= i < |descriptor| :: descriptor[i].typ in knownTypes
      ensures cl != null ==> fresh(cl) && cl.Valid() && cl.registry == registry && cl.descriptor == descriptor
      ensures cl != null ==> cl.knownTypes == knownTypes && cl.server == server
    {
      var known := AllKnown(descriptor, knownTypes);
      if !known {
        return null;
      }
      cl := new Client(registry, descriptor, knownTypes, server);
    }

    static method AllKnown(descriptor: Descriptor, knownTypes: KnownTypes) returns (known: bool)
      ensures known <==> forall i | 0 <= i < |descriptor| :: descriptor[i].typ in knownTypes
    {
      for i := 0 to |descriptor|
        invariant forall j | 0 <= j < i :: descriptor[j].typ in knownTypes
      {
        if descriptor[i].typ !in knownTypes {
          return false;
        }
      }
      return true;
    }

    /** convertObject on a wrapper. */
    method ConvertObject(schema: Schema, obj: IstioKind) returns (r: Result<Entry, Error>)
      ensures r == Conversion.ConvertObject(registry, schema, obj.Value())
    {
      var spec := obj.GetSpec();
      var data := FromJSONMap(registry, schema, Object(if spec == null then map[] else spec.data));
      if data.Err? {
        return Err(data.error);
      }
      var meta := obj.GetObjectMeta();
      return Ok(Entry(Meta(schema.typ, meta.name, meta.namespace, "", meta.labels, meta.annotations,
                           meta.resourceVersion),
                      Some(data.value)));
    }

    /** convertConfig: a fresh copy of the template with the metadata and the spec set. */
    method ConvertConfig(schema: Schema, entry: Entry) returns (r: Result<IstioKind, Error>)
      requires Valid() && schema.typ in knownTypes && WellTyped(registry, entry.spec)
      ensures match Conversion.ConvertConfig(registry, entry)
              case Err(e) => r == Err(e)
              case Ok(body) => r.Ok? && fresh(r.value) && r.value.Value() == body
    {
      var spec := ToJSONMap(registry, entry.spec);
      if spec.Err? {
        return Err(spec.error);
      }
      var out := knownTypes[schema.typ].obj.DeepCopyObject();
      var m := entry.meta;
      out.SetObjectMeta(ObjectMeta(m.name, m.namespace, m.resourceVersion, m.labels, m.annotations));
      var data := new SpecMap(spec.value);
      out.SetSpec(data);
      return Ok(out);
    }

    /** Copies a type's template and decodes a response into the copy. */
    method Receive(typ: string, response: KubeObject) returns (obj: IstioKind)
      requires Valid() && typ in knownTypes
      ensures fresh(obj) && obj.spec != null && fresh(obj.spec) && obj.Value() == response
    {
      obj := knownTypes[typ].obj.Receive(response);
    }

    method Get(typ: string, name: string, namespace: string) returns (found: Option<Entry>)
      requires Valid()
      ensures found == Operations.Get(registry, descriptor, server.Now(), typ, name, namespace)
    {
      var schema, exists_ := GetByType(descriptor, typ);
      if !exists_ {
        return None;
      }
      var response := Fetch(server.Now(), Path(ResourceName(schema.plural), namespace, name));
      if response.Err? {
        return None;
      }
      var obj := Receive(typ, response.value);
      var out := ConvertObject(schema, obj);
      return if out.Ok? then Some(out.value) else None;
    }

    /** The checks and the conversion Create and Update share, up to the request. */
    method Admit(entry: Entry, needsRevision: bool) returns (r: Result<(Schema, IstioKind), Error>)
      requires Valid() && WellTyped(registry, entry.spec)
      ensures match Operations.Admit(registry, descriptor, entry, needsRevision)
              case Err(e) => r == Err(e)
              case Ok((p, body)) =>
                && r.Ok? && fresh(r.value.1) && r.value.1.Value() == body
                && r.value.0.typ in knownTypes
                && p == Operations.PathOf(r.value.0, body.meta.namespace, body.meta.name)
    {
      var schema, exists_ := GetByType(descriptor, entry.meta.typ);
      if !exists_ {
        return Err(UnrecognizedType);
      }
      var verdict := Validate(registry, schema, entry.spec);
      if verdict != Pass {
        return Err(if verdict == Reject then Invalid else Panicked);
      }
      if needsRevision && entry.meta.resourceVersion == "" {
        return Err(RevisionRequired);
      }
      var converted := ConvertConfig(schema, entry);
      if converted.Err? {
        return Err(converted.error);
      }
      return Ok((schema, converted.value));
    }

    method Create(entry: Entry) returns (r: Result<string, Error>)
      requires Valid() && WellTyped(registry, entry.spec)
      modifies server
      ensures (server.Now(), r) == Operations.Create(registry, descriptor, old(server.Now()), entry)
      ensures Valid()
    {
      var admitted := Admit(entry, false);
      if admitted.Err? {
        return Err(admitted.error);
      }
      var (schema, out) := admitted.value;
      var body := out.Value();
      var response := server.DoPost(Operations.PathOf(schema, body.meta.namespace, body.meta.name), body);
      if response.Err? {
        return Err(response.error);
      }
      var obj := Receive(schema.typ, response.value);
      var meta := obj.GetObjectMeta();
      return Ok(meta.resourceVersion);
    }

    method Update(entry: Entry) returns (r: Result<string, Error>)
      requires Valid() && WellTyped(registry, entry.spec)
      modifies server
      ensures (server.Now(), r) == Operations.Update(registry, descriptor, old(server.Now()), entry)
      ensures Valid()
    {
      var admitted := Admit(entry, true);
      if admitted.Err? {
        return Err(admitted.error);
      }
      var (schema, out) := admitted.value;
      var body := out.Value();
      var response := server.DoPut(Operations.PathOf(schema, body.meta.namespace, body.meta.name), body);
      if response.Err? {
        return Err(response.error);
      }
      var obj := Receive(schema.typ, response.value);
      var meta := obj.GetObjectMeta();
      return Ok(meta.resourceVersion);
    }

    method Delete(typ: string, name: string, namespace: string) returns (r: Option<Error>)
      requires Valid()
      modifies server
      ensures (server.Now(), r) == Operations.Delete(descriptor, old(server.Now()), typ, name, namespace)
      ensures Valid()
    {
      var schema, exists_ := GetByType(descriptor, typ);
      if !exists_ {
        return Some(UnrecognizedType);
      }
      r := server.DoRemove(Path(ResourceName(schema.plural), namespace, name));
    }

    /** The conversion loop of List: it keeps what converts and collects the errors of the rest. */
    method ConvertItems(schema: Schema, list: IstioKindList, objects: seq<KubeObject>, errs: seq<Error>)
      returns (out: seq<Entry>, errors: seq<Error>)
      requires |list.items| == |objects| && forall i | 0 <= i < |objects| :: list.items[i].Value() == objects[i]
      ensures out == Operations.Converted(registry, schema, objects)
      ensures errors == errs + Operations.Failures(registry, schema, objects)
    {
      out, errors := [], errs;
      var items := list.GetItems();
      for i := 0 to items.Length
        invariant items[..] == list.items
        invariant out == Operations.Converted(registry, schema, objects[..i])
        invariant errors == errs + Operations.Failures(registry, schema, objects[..i])
      {
        assert items[i] == items[..][i];
        var obj := ConvertObject(schema, items[i]);
        assert objects[..i + 1][..i] == objects[..i];
        if obj.Err? {
          errors := errors + [obj.error];
        } else {
          out := out + [obj.value];
        }
      }
      assert objects[..|objects|] == objects;
    }

    method List(typ: string, namespace: string) returns (out: seq<Entry>, errors: seq<Error>)
      requires Valid()
      ensures Operations.List(registry, descriptor, server.Now(), typ, namespace, out, errors)
    {
      var schema, exists_ := GetByType(descriptor, typ);
      if !exists_ {
        return [], [UnrecognizedType];
      }
      var list := knownTypes[schema.typ].collection.DeepCopyObject();
      var objects, paths := server.DoList(ResourceName(schema.plural), namespace);
      list.Into(objects);
      out, errors := ConvertItems(schema, list, objects, []);
    }
  }
}
