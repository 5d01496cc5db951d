/**
 The generated Kubernetes wrapper types on the heap. A spec is a Go map, so copies of an object
 share it; the templates the client copies have none.
 */
module Templates {
  import opened Codec
  import opened Server

  /** The map behind an object's spec. */
  class SpecMap {
    var data: map<string, Json>

    constructor (data: map<string, Json>)
      ensures this.data == data
    {
      this.data := data;
    }
  }

  const NO_META := ObjectMeta("", "", "", map[], map[])

  class IstioKind {
    var meta: ObjectMeta
    var spec: SpecMap?

    constructor ()
      ensures meta == NO_META && spec == null
    {
      meta, spec := NO_META, null;
    }

    /** The object a wrapper stands for; a nil spec reads as an empty one. */
    function Value(): KubeObject
      reads this, spec
    {
      KubeObject(meta, if spec == null then map[] else spec.data)
    }

    method GetSpec() returns (s: SpecMap?)
      ensures s == spec
    {
      return spec;
    }

    method SetSpec(s: SpecMap?)
      modifies this`spec
      ensures spec == s
    {
      spec := s;
    }

    method GetObjectMeta() returns (m: ObjectMeta)
      ensures m == meta
    {
      return meta;
    }

    method SetObjectMeta(m: ObjectMeta)
      modifies this`meta
      ensures meta == m
    {
      meta := m;
    }

    /** Copies the metadata and shares the spec map. */
    method DeepCopyInto(out: IstioKind)
      modifies out
      ensures out.meta == old(meta) && out.spec == old(spec)
    {
      out.meta, out.spec := meta, spec;
    }

    method DeepCopyObject() returns (out: IstioKind)
      ensures fresh(out) && out.meta == meta && out.spec == spec
    {
      out := new IstioKind();
      DeepCopyInto(out);
    }

    /** Decodes a response into the wrapper: an existing spec map is written into, not replaced. */
    method Into(obj: KubeObject)
      modifies this, spec
      ensures meta == obj.meta && spec != null
      ensures old(spec) == null ==> fresh(spec) && Value() == obj
      ensures old(spec) != null ==> spec == old(spec) && spec.data == old(spec.data) + obj.spec
    {
      meta := obj.meta;
      if spec == null {
        spec := new SpecMap(obj.spec);
      } else {
        spec.data := spec.data + obj.spec;
      }
    }

    /**
     Copies the wrapper and decodes a response into the copy. Without a spec the wrapper is left
     alone; with one, the response is written into the map the wrapper shares with its copy.
     */
    method Receive(response: KubeObject) returns (out: IstioKind)
      modifies spec
      ensures fresh(out) && out.meta == response.meta && meta == old(meta) && spec == old(spec)
      ensures spec == null ==> out.spec != null && fresh(out.spec) && out.Value() == response
      ensures spec != null ==> out.spec == spec && Value().spec == old(Value()).spec + response.spec
    {
      out := DeepCopyObject();
      out.Into(response);
    }
  }

  class IstioKindList {
    var items: seq<IstioKind>

    constructor ()
      ensures items == []
    {
      items := [];
    }

    method GetItems() returns (out: array<IstioKind?>)
      ensures fresh(out) && out[..] == items
    {
      out := new IstioKind?[|items|](_ => null);
      for i := 0 to |items|
        invariant out[..i] == items[..i]
      {
        out[i] := items[i];
        assert out[..i + 1] == items[..i] + [items[i]];
      }
      assert out[..] == out[..|items|] && items == items[..|items|];
    }

    /** The generated copy writes through nil pointers unless there is nothing to copy. */
    method DeepCopyInto(out: IstioKindList)
      requires items == []
      modifies out
      ensures out.items == []
    {
      out.items := [];
    }

    method DeepCopyObject() returns (out: IstioKindList)
      requires items == []
      ensures fresh(out) && out.items == []
    {
      out := new IstioKindList();
      DeepCopyInto(out);
    }

    /** Decodes a list response: one new wrapper for each object. */
    method Into(objects: seq<KubeObject>)
      modifies this
      ensures |items| == |objects|
      ensures forall i | 0 <= i < |items| ::
                && fresh(items[i]) && items[i].spec != null && fresh(items[i].spec)
                && items[i].Value() == objects[i]
    {
      var made: seq<IstioKind> := [];
      for i := 0 to |objects|
        invariant |made| == i
        invariant forall j | 0 <= j < i ::
                    && fresh(made[j]) && made[j].spec != null && fresh(made[j].spec)
                    && made[j].Value() == objects[j]
      {
        var kind := new IstioKind();
        kind.Into(objects[i]);
        made := made + [kind];
      }
      items := made;
    }
  }

  /** The template of an object and of a list of one configuration type. */
  datatype KnownType = KnownType(obj: IstioKind, collection: IstioKindList)

  type KnownTypes = map<string, KnownType>

  ghost function TemplateObjects(known: KnownTypes): set<object> {
    (set t | t in known.Keys :: known[t].obj as object) + (set t | t in known.Keys :: known[t].collection as object)
  }

  /** A template without a spec, and a list template without items. */
  ghost predicate PristineType(k: KnownType)
    reads k.obj, k.collection
  {
    k.obj.meta == NO_META && k.obj.spec == null && k.collection.items == []
  }

  ghost predicate Pristine(known: KnownTypes)
    reads TemplateObjects(known)
  {
    forall t | t in known ::
      && known[t].obj in TemplateObjects(known) && known[t].collection in TemplateObjects(known)
      && PristineType(known[t])
  }

  method MakeKnownType() returns (k: KnownType)
    ensures fresh(k.obj) && fresh(k.collection) && PristineType(k)
  {
    var o := new IstioKind();
    var c := new IstioKindList();
    return KnownType(o, c);
  }

  /** The templates generate.sh writes: one pair for each shipped type and one for the test type. */
  method MakeKnownTypes() returns (known: KnownTypes)
    ensures known.Keys == {"service-class", "service-plan", "fake-config"}
    ensures Pristine(known)
    ensures forall t | t in known :: fresh(known[t].obj) && fresh(known[t].collection)
  {
    var a := MakeKnownType();
    var b := MakeKnownType();
    var c := MakeKnownType();
    known := map["service-class" := a, "service-plan" := b, "fake-config" := c];
    assert forall t | t in known :: known[t] == a || known[t] == b || known[t] == c;
  }
}
