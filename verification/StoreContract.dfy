/**
 The config store as its contract describes it, with no server behind it: a map from keys to
 entries, and the revisions ever handed out. The text of a revision means nothing; the contract only
 asks that a write gets a new one.
 */
module StoreContract {
  import opened Wrappers
  import opened Config
  import opened Runs

  datatype Store = Store(entries: map<ConfigKey, Entry>, revisions: set<string>)

  function KeyOf(entry: Entry): ConfigKey {
    ConfigKey(entry.meta.typ, entry.meta.namespace, entry.meta.name)
  }

  /** The store can take the entry: a known type, a spec, and the type's validation passes. */
  predicate Acceptable(reg: Registry, d: Descriptor, entry: Entry) {
    && SchemaOf(d, entry.meta.typ).Some?
    && Validate(reg, SchemaOf(d, entry.meta.typ).value, entry.spec) == Pass
    && entry.spec.Some?
  }

  /** What the store keeps of an entry it accepts with a new revision. */
  function Kept(entry: Entry, revision: string): Entry {
    entry.(meta := entry.meta.(istioNamespace := "", resourceVersion := revision))
  }

  predicate InList(k: ConfigKey, typ: string, namespace: string) {
    k.typ == typ && (namespace == "" || k.namespace == namespace)
  }

  /** The entries of a type and namespace, each once, in any order. */
  ghost predicate ListsExactly(a: Store, typ: string, namespace: string, out: seq<Entry>) {
    && (forall i | 0 <= i < |out| ::
          KeyOf(out[i]) in a.entries && a.entries[KeyOf(out[i])] == out[i] && InList(KeyOf(out[i]), typ, namespace))
    && (forall i, j | 0 <= i < j < |out| :: KeyOf(out[i]) != KeyOf(out[j]))
    && (forall k | k in a.entries && InList(k, typ, namespace) :: a.entries[k] in out)
  }

  /** A write succeeds under its condition, with a revision that is new; otherwise it fails. */
  predicate WriteReply(a: Store, allowed: bool, reply: Reply) {
    && reply.Wrote?
    && reply.result.Ok? == allowed
    && (allowed ==> reply.result.value != "" && reply.result.value !in a.revisions)
  }

  predicate CreateAllowed(reg: Registry, d: Descriptor, a: Store, entry: Entry) {
    Acceptable(reg, d, entry) && KeyOf(entry) !in a.entries
  }

  predicate UpdateAllowed(reg: Registry, d: Descriptor, a: Store, entry: Entry) {
    && Acceptable(reg, d, entry)
    && KeyOf(entry) in a.entries
    && a.entries[KeyOf(entry)].meta.resourceVersion == entry.meta.resourceVersion
  }

  /** The replies the contract allows. */
  ghost predicate Allows(reg: Registry, d: Descriptor, a: Store, op: Op, reply: Reply) {
    match op
    case Get(typ, name, namespace) =>
      var k := ConfigKey(typ, namespace, name);
      reply == Got(if k in a.entries then Some(a.entries[k]) else None)
    case List(typ, namespace) =>
      && reply.Listed?
      && (reply.errors == [] <==> SchemaOf(d, typ).Some?)
      && ListsExactly(a, typ, namespace, reply.entries)
    case Create(entry) => WriteReply(a, CreateAllowed(reg, d, a, entry), reply)
    case Update(entry) => WriteReply(a, UpdateAllowed(reg, d, a, entry), reply)
    case Delete(typ, name, namespace) =>
      reply.Deleted? && (reply.error.None? <==> ConfigKey(typ, namespace, name) in a.entries)
  }

  /** The store after an operation with its reply; a failed operation changes nothing. */
  function Next(a: Store, op: Op, reply: Reply): Store {
    match op
    case Delete(typ, name, namespace) =>
      if reply.Deleted? && reply.error.None? then a.(entries := a.entries - {ConfigKey(typ, namespace, name)}) else a
    case Create(entry) => Written(a, entry, reply)
    case Update(entry) => Written(a, entry, reply)
    case _ => a
  }

  function Written(a: Store, entry: Entry, reply: Reply): Store {
    if reply.Wrote? && reply.result.Ok?
    then Store(a.entries[KeyOf(entry) := Kept(entry, reply.result.value)], a.revisions + {reply.result.value})
    else a
  }

  /** Every entry sits under its own key with a revision that was handed out. */
  ghost predicate Coherent(a: Store) {
    && "" !in a.revisions
    && forall k | k in a.entries :: KeyOf(a.entries[k]) == k && a.entries[k].meta.resourceVersion in a.revisions
  }

  /** The contract keeps its own bookkeeping. */
  lemma NextCoherent(reg: Registry, d: Descriptor, a: Store, op: Op, reply: Reply)
    requires Coherent(a) && Allows(reg, d, a, op, reply)
    ensures Coherent(Next(a, op, reply))
  {
  }
}
