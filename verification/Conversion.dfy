/** Between configuration entries and Kubernetes objects. */
module Conversion {
  import opened Wrappers
  import opened Codec
  import opened Config
  import opened Server

  /** convertObject: the type comes from the schema, the rest of the metadata from the object. */
  function ConvertObject(reg: Registry, schema: Schema, obj: KubeObject): (r: Result<Entry, Error>)
    ensures r.Ok? ==> r.value.meta.typ == schema.typ && r.value.spec.Some? && WellTyped(reg, r.value.spec)
  {
    match FromJSONMap(reg, schema, Object(obj.spec))
    case Err(e) => Err(e)
    case Ok(m) =>
      var meta := obj.meta;
      Ok(Entry(Meta(schema.typ, meta.name, meta.namespace, "", meta.labels, meta.annotations,
                    meta.resourceVersion),
               Some(m)))
  }

  /** convertConfig: metadata copied over, IstioNamespace and the type dropped. */
  function ConvertConfig(reg: Registry, entry: Entry): Result<KubeObject, Error>
    requires WellTyped(reg, entry.spec)
  {
    match ToJSONMap(reg, entry.spec)
    case Err(e) => Err(e)
    case Ok(spec) =>
      var m := entry.meta;
      Ok(KubeObject(ObjectMeta(m.name, m.namespace, m.resourceVersion, m.labels, m.annotations), spec))
  }

  /**
   An object is read exactly when its spec fits the linked message type; the entry then has the
   object's metadata, and its message is written back as the spec in canonical form.
   */
  lemma ObjectReads(reg: Registry, schema: Schema, obj: KubeObject)
    requires WellFormedRegistry(reg)
    ensures ConvertObject(reg, schema, obj).Ok?
       <==> schema.messageName in reg && Fits(reg[schema.messageName], obj.spec)
    ensures ConvertObject(reg, schema, obj).Ok? ==>
              var e := ConvertObject(reg, schema, obj).value;
              && e.meta == Meta(schema.typ, obj.meta.name, obj.meta.namespace, "", obj.meta.labels,
                                obj.meta.annotations, obj.meta.resourceVersion)
              && e.spec.value.typ == schema.messageName
              && Encode(reg[e.spec.value.typ], e.spec.value.body) == Canonical(reg[schema.messageName], obj.spec)
  {
    SpecReads(reg, schema, Object(obj.spec));
  }

  /** What is left of an entry once it has been stored under a schema. */
  function Stored(schema: Schema, entry: Entry): Entry {
    entry.(meta := entry.meta.(typ := schema.typ, istioNamespace := ""))
  }

  /**
   An entry converted to an object and back loses its IstioNamespace and takes the schema's type,
   and nothing else, exactly when its spec has the schema's message type.
   */
  lemma ConversionRoundTrip(reg: Registry, schema: Schema, entry: Entry)
    requires WellFormedRegistry(reg) && WellTyped(reg, entry.spec) && entry.spec.Some?
    ensures ConvertConfig(reg, entry).Ok?
    ensures ConvertObject(reg, schema, ConvertConfig(reg, entry).value) == Ok(Stored(schema, entry))
       <==> entry.spec.value.typ == schema.messageName
  {
    SpecRoundTrip(reg, schema, entry.spec);
  }

  /** The revision a server puts on an object is the revision of the entry read from it. */
  lemma StampedConversion(reg: Registry, schema: Schema, obj: KubeObject, revision: string)
    requires ConvertObject(reg, schema, obj).Ok?
    ensures ConvertObject(reg, schema, Stamp(obj, revision))
         == Ok(ConvertObject(reg, schema, obj).value
               .(meta := ConvertObject(reg, schema, obj).value.meta.(resourceVersion := revision)))
  {
  }
}
