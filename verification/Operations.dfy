/** What each operation of the store client does to the server and answers, as functions. */
module Operations {
  import opened Wrappers
  import opened Names
  import opened Config
  import opened Server
  import opened Conversion

  function PathOf(schema: Schema, namespace: string, name: string): Path {
    Path(ResourceName(schema.plural), namespace, name)
  }

  /** Where an object of a type is kept, when the type is known. */
  function PathIn(d: Descriptor, typ: string, namespace: string, name: string): Option<Path> {
    match SchemaOf(d, typ)
    case None => None
    case Some(schema) => Some(PathOf(schema, namespace, name))
  }

  /**
   What Create and Update do before their request: look the schema up, validate, ask for a
   revision where one is needed, convert. The result is where to send the body, and the body.
   */
  function Admit(reg: Registry, d: Descriptor, entry: Entry, needsRevision: bool): Result<(Path, KubeObject), Error>
    requires WellTyped(reg, entry.spec)
  {
    match SchemaOf(d, entry.meta.typ)
    case None => Err(UnrecognizedType)
    case Some(schema) =>
      match Validate(reg, schema, entry.spec)
      case Reject => Err(Invalid)
      case Panic => Err(Panicked)
      case Pass =>
        if needsRevision && entry.meta.resourceVersion == "" then Err(RevisionRequired)
        else
          match ConvertConfig(reg, entry)
          case Err(e) => Err(e)
          case Ok(body) => Ok((PathOf(schema, body.meta.namespace, body.meta.name), body))
  }

  function Revision(r: Result<KubeObject, Error>): Result<string, Error> {
    match r
    case Err(e) => Err(e)
    case Ok(obj) => Ok(obj.meta.resourceVersion)
  }

  function Create(reg: Registry, d: Descriptor, s: State, entry: Entry): (State, Result<string, Error>)
    requires WellTyped(reg, entry.spec)
  {
    match Admit(reg, d, entry, false)
    case Err(e) => (s, Err(e))
    case Ok((p, body)) =>
      var (s', r) := Post(s, p, body);
      (s', Revision(r))
  }

  function Update(reg: Registry, d: Descriptor, s: State, entry: Entry): (State, Result<string, Error>)
    requires WellTyped(reg, entry.spec)
  {
    match Admit(reg, d, entry, true)
    case Err(e) => (s, Err(e))
    case Ok((p, body)) =>
      var (s', r) := Put(s, p, body);
      (s', Revision(r))
  }

  function Delete(d: Descriptor, s: State, typ: string, name: string, namespace: string): (State, Option<Error>) {
    match SchemaOf(d, typ)
    case None => (s, Some(UnrecognizedType))
    case Some(schema) => Remove(s, PathOf(schema, namespace, name))
  }

  function Get(reg: Registry, d: Descriptor, s: State, typ: string, name: string, namespace: string): Option<Entry> {
    match SchemaOf(d, typ)
    case None => None
    case Some(schema) =>
      match Fetch(s, PathOf(schema, namespace, name))
      case Err(_) => None
      case Ok(obj) =>
        match ConvertObject(reg, schema, obj)
        case Err(_) => None
        case Ok(entry) => Some(entry)
  }

  function Kept(r: Result<Entry, Error>): seq<Entry> {
    if r.Ok? then [r.value] else []
  }

  function Reported(r: Result<Entry, Error>): seq<Error> {
    if r.Ok? then [] else [r.error]
  }

  /** The items that convert, in order. */
  function Converted(reg: Registry, schema: Schema, items: seq<KubeObject>): seq<Entry> {
    if items == [] then []
    else
      var n := |items| - 1;
      Converted(reg, schema, items[..n]) + Kept(ConvertObject(reg, schema, items[n]))
  }

  /** The errors of the items that do not, in order. */
  function Failures(reg: Registry, schema: Schema, items: seq<KubeObject>): seq<Error> {
    if items == [] then []
    else
      var n := |items| - 1;
      Failures(reg, schema, items[..n]) + Reported(ConvertObject(reg, schema, items[n]))
  }

  /** An answer List may give; the order of the items is the server's. */
  ghost predicate List(reg: Registry, d: Descriptor, s: State, typ: string, namespace: string,
                       entries: seq<Entry>, errors: seq<Error>)
  {
    match SchemaOf(d, typ)
    case None => entries == [] && errors == [UnrecognizedType]
    case Some(schema) =>
      exists paths ::
        && Enumerates(s, ResourceName(schema.plural), namespace, paths)
        && entries == Converted(reg, schema, ObjectsAt(s, paths))
        && errors == Failures(reg, schema, ObjectsAt(s, paths))
  }

  /** The paths behind a listing of a known type. */
  lemma ListedPaths(reg: Registry, d: Descriptor, s: State, typ: string, namespace: string,
                    entries: seq<Entry>, errors: seq<Error>)
    returns (paths: seq<Path>)
    requires List(reg, d, s, typ, namespace, entries, errors) && SchemaOf(d, typ).Some?
    ensures Enumerates(s, ResourceOf(d, typ).value, namespace, paths)
    ensures entries == Converted(reg, SchemaOf(d, typ).value, ObjectsAt(s, paths))
    ensures errors == Failures(reg, SchemaOf(d, typ).value, ObjectsAt(s, paths))
  {
    var schema := SchemaOf(d, typ).value;
    paths :| Enumerates(s, ResourceName(schema.plural), namespace, paths)
          && entries == Converted(reg, schema, ObjectsAt(s, paths))
          && errors == Failures(reg, schema, ObjectsAt(s, paths));
  }

  /** Every item is either converted or reported; nothing is reported only if all convert. */
  lemma {:induction false} ConvertedOrReported(reg: Registry, schema: Schema, items: seq<KubeObject>)
    ensures |Converted(reg, schema, items)| + |Failures(reg, schema, items)| == |items|
    ensures Failures(reg, schema, items) == [] <==>
              forall i | 0 <= i < |items| :: ConvertObject(reg, schema, items[i]).Ok?
  {
    if items != [] {
      var n := |items| - 1;
      var front := items[..n];
      ConvertedOrReported(reg, schema, front);
      assert forall i | 0 <= i < n :: items[i] == front[i];
    }
  }

  /** Entries keep the order of the items: those of a first part come before those of the rest. */
  lemma {:induction false} ConvertedInOrder(reg: Registry, schema: Schema,
                                            a: seq<KubeObject>, b: seq<KubeObject>, all: seq<KubeObject>)
    requires all == a + b
    ensures Converted(reg, schema, all) == Converted(reg, schema, a) + Converted(reg, schema, b)
    decreases |b|
  {
    if b == [] {
      assert all == a;
    } else {
      var front := b[..|b| - 1];
      ConvertedInOrder(reg, schema, a, front, a + front);
      assert all[..|all| - 1] == a + front && all[|all| - 1] == b[|b| - 1];
    }
  }

  /** And so do the errors. */
  lemma {:induction false} FailuresInOrder(reg: Registry, schema: Schema,
                                           a: seq<KubeObject>, b: seq<KubeObject>, all: seq<KubeObject>)
    requires all == a + b
    ensures Failures(reg, schema, all) == Failures(reg, schema, a) + Failures(reg, schema, b)
    decreases |b|
  {
    if b == [] {
      assert all == a;
    } else {
      var front := b[..|b| - 1];
      FailuresInOrder(reg, schema, a, front, a + front);
      assert all[..|all| - 1] == a + front && all[|all| - 1] == b[|b| - 1];
    }
  }

  /** The entries are exactly what the items convert to. */
  lemma {:induction false} ConvertedMembers(reg: Registry, schema: Schema, items: seq<KubeObject>, e: Entry)
    ensures e in Converted(reg, schema, items) <==>
              exists i | 0 <= i < |items| :: ConvertObject(reg, schema, items[i]) == Ok(e)
  {
    if items != [] {
      var n := |items| - 1;
      var front := items[..n];
      ConvertedMembers(reg, schema, front, e);
      assert forall i | 0 <= i < n :: items[i] == front[i];
      if e in Converted(reg, schema, front) {
        var i :| 0 <= i < n && ConvertObject(reg, schema, front[i]) == Ok(e);
        assert ConvertObject(reg, schema, items[i]) == Ok(e);
      }
    }
  }

  /** When every item converts, the entries are the items one by one. */
  lemma {:induction false} ConvertedAll(reg: Registry, schema: Schema, items: seq<KubeObject>)
    requires forall i | 0 <= i < |items| :: ConvertObject(reg, schema, items[i]).Ok?
    ensures Failures(reg, schema, items) == [] && |Converted(reg, schema, items)| == |items|
    ensures forall i | 0 <= i < |items| ::
              Converted(reg, schema, items)[i] == ConvertObject(reg, schema, items[i]).value
  {
    if items != [] {
      ConvertedAll(reg, schema, items[..|items| - 1]);
    }
  }
}
