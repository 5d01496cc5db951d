/** Types do not disturb each other exactly when their resource names differ. */
module Isolation {
  import opened Wrappers
  import opened Counting
  import opened Config
  import opened Server
  import opened Conversion
  import opened Runs
  import opened StoreContract
  import opened Invariants
  import Operations

  function TypeOf(op: Op): string {
    match op
    case Create(entry) => entry.meta.typ
    case Update(entry) => entry.meta.typ
    case _ => op.typ
  }

  ghost predicate SameReads(reg: Registry, d: Descriptor, s: State, s': State, typ: string) {
    && (forall name, namespace ::
          Operations.Get(reg, d, s', typ, name, namespace) == Operations.Get(reg, d, s, typ, name, namespace))
    && (forall namespace, entries, errors ::
          Operations.List(reg, d, s', typ, namespace, entries, errors)
          <==> Operations.List(reg, d, s, typ, namespace, entries, errors))
  }

  /** No operation on one type changes what Get or List can answer for another, in any state. */
  ghost predicate NonInterfering(reg: Registry, d: Descriptor) {
    forall s, op, typ | OpTyped(reg, op) && TypeOf(op) != typ :: SameReads(reg, d, s, After(reg, d, s, op), typ)
  }

  ghost predicate SameUnder(s: State, s': State, resource: string) {
    && (forall p: Path | p.resource == resource :: p in s.objects <==> p in s'.objects)
    && (forall p: Path | p.resource == resource && p in s.objects :: s.objects[p] == s'.objects[p])
  }

  /** An operation touches nothing outside the resource of its type. */
  lemma TouchesOwnResource(reg: Registry, d: Descriptor, s: State, op: Op, resource: string)
    requires OpTyped(reg, op) && ResourceOf(d, TypeOf(op)) != Some(resource)
    ensures SameUnder(s, After(reg, d, s, op), resource)
  {
  }

  lemma SameUnderSameReads(reg: Registry, d: Descriptor, s: State, s': State, typ: string)
    requires ResourceOf(d, typ).Some? ==> SameUnder(s, s', ResourceOf(d, typ).value)
    ensures SameReads(reg, d, s, s', typ)
  {
    forall name, namespace
      ensures Operations.Get(reg, d, s', typ, name, namespace) == Operations.Get(reg, d, s, typ, name, namespace)
    {
      if SchemaOf(d, typ).Some? {
        var p := Operations.PathOf(SchemaOf(d, typ).value, namespace, name);
        assert p in s.objects <==> p in s'.objects;
      }
    }
    forall namespace, entries, errors
      ensures Operations.List(reg, d, s', typ, namespace, entries, errors)
         <==> Operations.List(reg, d, s, typ, namespace, entries, errors)
    {
      if ResourceOf(d, typ).Some? {
        if Operations.List(reg, d, s, typ, namespace, entries, errors) {
          SameEnumerations(reg, d, s, s', typ, namespace, entries, errors);
        }
        if Operations.List(reg, d, s', typ, namespace, entries, errors) {
          SameEnumerations(reg, d, s', s, typ, namespace, entries, errors);
        }
      }
    }
  }

  lemma SameEnumerations(reg: Registry, d: Descriptor, s: State, s': State, typ: string, namespace: string,
                         entries: seq<Entry>, errors: seq<Error>)
    requires ResourceOf(d, typ).Some? && SameUnder(s, s', ResourceOf(d, typ).value)
    requires Operations.List(reg, d, s, typ, namespace, entries, errors)
    ensures Operations.List(reg, d, s', typ, namespace, entries, errors)
  {
    var schema, resource := SchemaOf(d, typ).value, ResourceOf(d, typ).value;
    var paths := Operations.ListedPaths(reg, d, s, typ, namespace, entries, errors);
    SameObjects(s, s', resource, namespace, paths);
  }

  lemma SameObjects(s: State, s': State, resource: string, namespace: string, paths: seq<Path>)
    requires SameUnder(s, s', resource) && Enumerates(s, resource, namespace, paths)
    ensures Enumerates(s', resource, namespace, paths)
    ensures ObjectsAt(s, paths) == ObjectsAt(s', paths)
  {
    forall i | 0 <= i < |paths|
      ensures paths[i] in s'.objects && ObjectsAt(s, paths)[i] == s'.objects[paths[i]]
    {
    }
  }

  /** Two types on one resource disturb each other: a deletion through one changes the other's listing. */
  lemma AliasesInterfere(reg: Registry, d: Descriptor, t: string, u: string)
    requires t != u && ResourceOf(d, t).Some? && ResourceOf(d, t) == ResourceOf(d, u)
    ensures !NonInterfering(reg, d)
  {
    var p := Path(ResourceOf(d, t).value, "", "x");
    var obj := KubeObject(ObjectMeta("x", "", "0", map[], map[]), map[]);
    var s, op := State(map[p := obj], 1), Delete(t, "x", "");
    var s' := After(reg, d, s, op);
    EmptyListing(reg, d, s', u);
    NoEmptyListing(reg, d, s, u, p);
    assert TypeOf(op) != u && !SameReads(reg, d, s, s', u);
  }

  lemma EmptyListing(reg: Registry, d: Descriptor, s: State, typ: string)
    requires SchemaOf(d, typ).Some? && s.objects == map[]
    ensures Operations.List(reg, d, s, typ, "", [], [])
  {
    assert Enumerates(s, ResourceOf(d, typ).value, "", []);
  }

  /** An object under the resource is listed or reported. */
  lemma NoEmptyListing(reg: Registry, d: Descriptor, s: State, typ: string, p: Path)
    requires SchemaOf(d, typ).Some? && p in s.objects && ResourceOf(d, typ) == Some(p.resource)
    ensures !Operations.List(reg, d, s, typ, "", [], [])
  {
    forall paths | Enumerates(s, p.resource, "", paths)
      ensures Operations.Converted(reg, SchemaOf(d, typ).value, ObjectsAt(s, paths)) != []
           || Operations.Failures(reg, SchemaOf(d, typ).value, ObjectsAt(s, paths)) != []
    {
      assert InScope(p, p.resource, "");
      Operations.ConvertedOrReported(reg, SchemaOf(d, typ).value, ObjectsAt(s, paths));
    }
  }

  /**
   Operations on one type leave every other type's reads alone, in every state, exactly when the
   plurals of the descriptor stay distinct after dash removal.
   */
  lemma NonInterferenceIsNonAliasing(reg: Registry, d: Descriptor)
    ensures NonInterfering(reg, d) <==> NonAliasing(d)
  {
    if NonAliasing(d) {
      forall s, op, typ | OpTyped(reg, op) && TypeOf(op) != typ
        ensures SameReads(reg, d, s, After(reg, d, s, op), typ)
      {
        if ResourceOf(d, typ).Some? {
          assert ResourceOf(d, typ) != ResourceOf(d, TypeOf(op));
          TouchesOwnResource(reg, d, s, op, ResourceOf(d, typ).value);
        }
        SameUnderSameReads(reg, d, s, After(reg, d, s, op), typ);
      }
    } else {
      var t, u :| ResourceOf(d, t).Some? && ResourceOf(d, t) == ResourceOf(d, u) && t != u;
      AliasesInterfere(reg, d, t, u);
    }
  }

  // ---- Listing by namespace ----------------------------------------------------------------

  /** The entries of a namespace in a listing, each with its count there. */
  ghost predicate IsShare(all: seq<Entry>, namespace: string, some: seq<Entry>) {
    forall e :: multiset(some)[e] == if e.meta.namespace == namespace then multiset(all)[e] else 0
  }

  predicate SameName(a: KubeObject, b: KubeObject) {
    a.meta.name == b.meta.name && a.meta.namespace == b.meta.namespace
  }

  /** Objects with different names never read as the same entry. */
  lemma {:induction false} ConvertedOnce(reg: Registry, schema: Schema, items: seq<KubeObject>, e: Entry)
    requires forall i, j | 0 <= i < j < |items| :: !SameName(items[i], items[j])
    ensures multiset(Operations.Converted(reg, schema, items))[e] <= 1
  {
    if items != [] {
      var n := |items| - 1;
      var front := items[..n];
      ConvertedOnce(reg, schema, front, e);
      Operations.ConvertedMembers(reg, schema, front, e);
      if ConvertObject(reg, schema, items[n]) == Ok(e) {
        forall i | 0 <= i < n ensures ConvertObject(reg, schema, front[i]) != Ok(e) {
          assert !SameName(items[i], items[n]) && front[i] == items[i];
        }
      }
    }
  }

  /** A listing shows an entry at most once, and only entries of its type and namespace. */
  lemma ListedOnce(reg: Registry, d: Descriptor, s: State, typ: string, namespace: string,
                   entries: seq<Entry>, errors: seq<Error>, e: Entry)
    requires Named(s) && Operations.List(reg, d, s, typ, namespace, entries, errors)
    ensures multiset(entries)[e] <= 1
    ensures e in entries ==> e.meta.typ == typ && (namespace == "" || e.meta.namespace == namespace)
  {
    if SchemaOf(d, typ).Some? {
      var schema := SchemaOf(d, typ).value;
      var paths := Operations.ListedPaths(reg, d, s, typ, namespace, entries, errors);
      var items := ObjectsAt(s, paths);
      forall i, j | 0 <= i < j < |items| ensures !SameName(items[i], items[j]) {
        DifferentPaths(s, ResourceOf(d, typ).value, namespace, paths, i, j);
      }
      ConvertedOnce(reg, schema, items, e);
      Operations.ConvertedMembers(reg, schema, items, e);
      if e in entries {
        var i :| 0 <= i < |items| && ConvertObject(reg, schema, items[i]) == Ok(e);
        assert items[i] == s.objects[paths[i]];
        NamedReads(reg, schema, paths[i], items[i], e);
      }
    }
  }

  lemma DifferentPaths(s: State, resource: string, namespace: string, paths: seq<Path>, i: nat, j: nat)
    requires Named(s) && Enumerates(s, resource, namespace, paths) && i < j < |paths|
    ensures !SameName(s.objects[paths[i]], s.objects[paths[j]])
  {
    assert NamedAt(paths[i], s.objects[paths[i]]) && NamedAt(paths[j], s.objects[paths[j]]);
    assert paths[i] != paths[j] && paths[i].resource == paths[j].resource;
  }

  /**
   The client's listing of a namespace is that namespace's share of its listing across namespaces,
   entry by entry with its count, whatever objects fail to decode.
   */
  lemma ListPartition(reg: Registry, d: Descriptor, s: State, typ: string, namespace: string,
                      all: seq<Entry>, errors: seq<Error>, some: seq<Entry>, errors': seq<Error>)
    requires Named(s) && namespace != ""
    requires Operations.List(reg, d, s, typ, "", all, errors)
    requires Operations.List(reg, d, s, typ, namespace, some, errors')
    ensures IsShare(all, namespace, some)
  {
    forall e
      ensures multiset(some)[e] == if e.meta.namespace == namespace then multiset(all)[e] else 0
    {
      ListedOnce(reg, d, s, typ, "", all, errors, e);
      ListedOnce(reg, d, s, typ, namespace, some, errors', e);
      if e.meta.typ == typ && e.meta.namespace == namespace {
        GetFindsWhatListShows(reg, d, s, typ, "", all, errors, e);
        GetFindsWhatListShows(reg, d, s, typ, namespace, some, errors', e);
      }
    }
  }

  /** The same of the listings the store contract allows. */
  lemma StoreListPartition(a: Store, typ: string, namespace: string, all: seq<Entry>, some: seq<Entry>)
    requires ListsExactly(a, typ, "", all) && ListsExactly(a, typ, namespace, some) && namespace != ""
    ensures IsShare(all, namespace, some)
  {
    DistinctEntries(a, typ, "", all);
    DistinctEntries(a, typ, namespace, some);
    forall e
      ensures multiset(some)[e] == if e.meta.namespace == namespace then multiset(all)[e] else 0
    {
      CountDistinct(all, e);
      CountDistinct(some, e);
      if e in some {
        assert InList(KeyOf(e), typ, namespace) && a.entries[KeyOf(e)] == e;
        assert InList(KeyOf(e), typ, "");
      }
      if e in all && e.meta.namespace == namespace {
        assert InList(KeyOf(e), typ, namespace) && a.entries[KeyOf(e)] == e;
      }
    }
  }

  function Joined(parts: seq<seq<Entry>>): seq<Entry> {
    if parts == [] then [] else parts[0] + Joined(parts[1..])
  }

  /** The shares of several namespaces, none repeated. */
  ghost predicate Shares(all: seq<Entry>, namespaces: seq<string>, parts: seq<seq<Entry>>) {
    && |parts| == |namespaces|
    && (forall i, j | 0 <= i < j < |namespaces| :: namespaces[i] != namespaces[j])
    && (forall i | 0 <= i < |namespaces| :: IsShare(all, namespaces[i], parts[i]))
  }

  lemma {:induction false} JoinedCounts(all: seq<Entry>, namespaces: seq<string>, parts: seq<seq<Entry>>, e: Entry)
    requires Shares(all, namespaces, parts)
    ensures multiset(Joined(parts))[e] == if e.meta.namespace in namespaces then multiset(all)[e] else 0
  {
    if parts != [] {
      JoinedCounts(all, namespaces[1..], parts[1..], e);
      assert IsShare(all, namespaces[0], parts[0]);
      assert namespaces == [namespaces[0]] + namespaces[1..];
    }
  }

  /** Shares joined are the whole exactly when they are the shares of all namespaces there are. */
  lemma SharesJoin(all: seq<Entry>, namespaces: seq<string>, parts: seq<seq<Entry>>)
    requires Shares(all, namespaces, parts)
    ensures multiset(Joined(parts)) == multiset(all)
       <==> forall i | 0 <= i < |all| :: all[i].meta.namespace in namespaces
  {
    forall e
      ensures multiset(Joined(parts))[e] == if e.meta.namespace in namespaces then multiset(all)[e] else 0
    {
      JoinedCounts(all, namespaces, parts, e);
    }
    if multiset(Joined(parts)) == multiset(all) {
      forall i | 0 <= i < |all| ensures all[i].meta.namespace in namespaces {
        assert all[i] in multiset(all);
      }
    } else {
      var e :| multiset(Joined(parts))[e] != multiset(all)[e];
      assert e in all && e.meta.namespace !in namespaces;
    }
  }

  /**
   The client's listings of different namespaces are disjoint, and joined they are its listing
   across namespaces, entry by entry with its count, exactly when every entry listed there lives in
   one of them.
   */
  lemma ListUnion(reg: Registry, d: Descriptor, s: State, typ: string, all: seq<Entry>, errors: seq<Error>,
                  namespaces: seq<string>, parts: seq<seq<Entry>>, failures: seq<seq<Error>>)
    requires Named(s) && Operations.List(reg, d, s, typ, "", all, errors)
    requires |parts| == |failures| == |namespaces|
    requires forall i, j | 0 <= i < j < |namespaces| :: namespaces[i] != namespaces[j]
    requires forall i | 0 <= i < |namespaces| ::
               namespaces[i] != "" && Operations.List(reg, d, s, typ, namespaces[i], parts[i], failures[i])
    ensures Shares(all, namespaces, parts)
    ensures multiset(Joined(parts)) == multiset(all)
       <==> forall i | 0 <= i < |all| :: all[i].meta.namespace in namespaces
  {
    forall i | 0 <= i < |namespaces| ensures IsShare(all, namespaces[i], parts[i]) {
      ListPartition(reg, d, s, typ, namespaces[i], all, errors, parts[i], failures[i]);
    }
    SharesJoin(all, namespaces, parts);
  }

  /** The same of the listings the store contract allows. */
  lemma StoreListUnion(a: Store, typ: string, all: seq<Entry>, namespaces: seq<string>, parts: seq<seq<Entry>>)
    requires ListsExactly(a, typ, "", all) && |parts| == |namespaces|
    requires forall i, j | 0 <= i < j < |namespaces| :: namespaces[i] != namespaces[j]
    requires forall i | 0 <= i < |namespaces| ::
               namespaces[i] != "" && ListsExactly(a, typ, namespaces[i], parts[i])
    ensures multiset(Joined(parts)) == multiset(all)
       <==> forall i | 0 <= i < |all| :: all[i].meta.namespace in namespaces
  {
    forall i | 0 <= i < |namespaces| ensures IsShare(all, namespaces[i], parts[i]) {
      StoreListPartition(a, typ, namespaces[i], all, parts[i]);
    }
    SharesJoin(all, namespaces, parts);
  }

  lemma DistinctEntries(a: Store, typ: string, namespace: string, out: seq<Entry>)
    requires ListsExactly(a, typ, namespace, out)
    ensures forall i, j | 0 <= i < j < |out| :: out[i] != out[j]
  {
    forall i, j | 0 <= i < j < |out| ensures out[i] != out[j] {
      assert KeyOf(out[i]) != KeyOf(out[j]);
    }
  }
}
