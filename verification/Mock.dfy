/** The test configuration type, its numbered elements, and the keys they occupy. */
module Mock {
  import opened Wrappers
  import opened Codec
  import opened Text
  import opened Labels
  import opened Config
  import opened Counting
  import opened Osb
  import opened StoreContract

  const FAKE_MESSAGE := "proto.FakeConfig"

  const FAKE_FIELDS: seq<Field> :=
    [Field("key", StringKind),
     Field("pairs", MessagesKind([Field("key", StringKind), Field("value", StringKind)]))]

  /** FakeConfig's own validation: a type assertion, then a check for an empty key. */
  function NonEmptyKey(spec: Spec): Verdict {
    if spec.None? || spec.value.typ != FAKE_MESSAGE then Panic
    else if TextAt(spec.value.body, 0) == "" then Reject
    else Pass
  }

  const FAKE_CONFIG := Schema("fake-config", "fake-configs", FAKE_MESSAGE, Some(NonEmptyKey))

  function FakeSpec(key: string, pairs: seq<seq<Value>>): Spec {
    Some(Message(FAKE_MESSAGE, [Str(key), Repeated(pairs)]))
  }

  function Name(i: nat): string {
    "fake-config" + Decimal(i)
  }

  /** The i-th element with the given value in its pair. */
  function MakeWith(namespace: string, i: nat, value: string): Entry {
    Entry(Meta(FAKE_CONFIG.typ, Name(i), namespace, "",
               map["key" := Name(i)], map["annotationkey" := Name(i)], ""),
          FakeSpec(Name(i), [[Str("key"), Str(value)]]))
  }

  /** Make. */
  function Make(namespace: string, i: nat): Entry {
    MakeWith(namespace, i, Decimal(i))
  }

  function WithRevision(e: Entry, revision: string): Entry {
    e.(meta := e.meta.(resourceVersion := revision))
  }

  /** Compare: equal but for the revision. */
  predicate Compare(a: Entry, b: Entry) {
    WithRevision(a, "") == WithRevision(b, "")
  }

  /** Field by field: everything must agree but the revision. */
  lemma ComparesAllButRevision(a: Entry, b: Entry)
    ensures Compare(a, b) <==>
              && a.spec == b.spec && a.meta.typ == b.meta.typ && a.meta.name == b.meta.name
              && a.meta.namespace == b.meta.namespace && a.meta.istioNamespace == b.meta.istioNamespace
              && a.meta.labels == b.meta.labels && a.meta.annotations == b.meta.annotations
  {
    var e, e' := WithRevision(a, ""), WithRevision(b, "");
    assert e.spec == a.spec && e'.spec == b.spec;
    assert a.meta.(resourceVersion := "") == e.meta && b.meta.(resourceVersion := "") == e'.meta;
  }

  /** What the script relies on: the descriptor knows the type and its message type is linked. */
  ghost predicate KnowsFake(reg: Registry, d: Descriptor) {
    && SchemaOf(d, FAKE_CONFIG.typ) == Some(FAKE_CONFIG)
    && FAKE_MESSAGE in reg && reg[FAKE_MESSAGE] == FAKE_FIELDS
  }

  lemma PairTyped(key: string, value: string)
    ensures HasType([Field("key", StringKind), Field("value", StringKind)], [Str(key), Str(value)])
  {
    var f, v := [Field("key", StringKind), Field("value", StringKind)], [Str(key), Str(value)];
    assert f[1..][1..] == [] && v[1..][1..] == [];
  }

  lemma FakeTyped(reg: Registry, d: Descriptor, key: string, pairs: seq<seq<Value>>)
    requires KnowsFake(reg, d)
    requires pairs == [] || exists value :: pairs == [[Str("key"), Str(value)]]
    ensures WellTyped(reg, FakeSpec(key, pairs))
  {
    var v := [Str(key), Repeated(pairs)];
    if value :| pairs == [[Str("key"), Str(value)]] {
      PairTyped("key", value);
    }
    assert FAKE_FIELDS[1..][1..] == [] && v[1..][1..] == [];
    assert HasKind(FAKE_FIELDS[1].kind, v[1]);
    assert HasType(FAKE_FIELDS[1..], v[1..]);
  }

  lemma FakeLabels()
    ensures IsDNS1123Label(FAKE_CONFIG.typ) && IsDNS1123Label(FAKE_CONFIG.plural)
  {
    var typ, plural := FAKE_CONFIG.typ, FAKE_CONFIG.plural;
    assert IsLabel(typ) && IsLabel(plural);
    PatternIsLabel(typ);
    PatternIsLabel(plural);
  }

  /** The store takes a test entry exactly when its key is not empty. */
  lemma FakeAcceptable(reg: Registry, d: Descriptor, e: Entry, key: string, pairs: seq<seq<Value>>)
    requires KnowsFake(reg, d) && e.meta.typ == FAKE_CONFIG.typ && e.spec == FakeSpec(key, pairs)
    ensures Acceptable(reg, d, e) <==> key != ""
  {
    FakeLabels();
  }

  // ---- The numbered keys -------------------------------------------------------------------

  function NumberedKey(namespace: string, i: nat): ConfigKey {
    ConfigKey(FAKE_CONFIG.typ, namespace, Name(i))
  }

  lemma NumberedKeysDiffer(namespace: string, i: nat, j: nat)
    requires NumberedKey(namespace, i) == NumberedKey(namespace, j)
    ensures i == j
  {
    assert Name(i)[|"fake-config"|..] == Decimal(i) && Name(j)[|"fake-config"|..] == Decimal(j);
    DecimalInjective(i, j);
  }

  /** The key is the number of one of the elements. */
  ghost predicate Occupied(namespace: string, elts: map<nat, Entry>, k: ConfigKey) {
    exists i :: i in elts && k == NumberedKey(namespace, i)
  }

  /** The store holds what it held at first, and the given elements under their numbers. */
  ghost predicate Filled(namespace: string, base: map<ConfigKey, Entry>, elts: map<nat, Entry>,
                         entries: map<ConfigKey, Entry>)
  {
    && (forall k {:trigger Occupied(namespace, elts, k)} | k in entries :: k in base || Occupied(namespace, elts, k))
    && (forall k | k in base :: k in entries && entries[k] == base[k])
    && (forall i {:trigger NumberedKey(namespace, i)} | i in elts ::
          NumberedKey(namespace, i) in entries && Compare(entries[NumberedKey(namespace, i)], elts[i]))
  }

  /** The type the script asks for in vain. */
  const MISSING := "missing"

  /** No entries of the types the script works on; an empty store has none. */
  ghost predicate NoFakes(entries: map<ConfigKey, Entry>) {
    forall k | k in entries :: k.typ != FAKE_CONFIG.typ && k.typ != MISSING
  }

  /** Putting an element under its number. */
  lemma FilledPut(namespace: string, base: map<ConfigKey, Entry>, elts: map<nat, Entry>,
                  entries: map<ConfigKey, Entry>, i: nat, e: Entry, stored: Entry)
    requires Filled(namespace, base, elts, entries) && NoFakes(base) && Compare(stored, e)
    ensures Filled(namespace, base, elts[i := e], entries[NumberedKey(namespace, i) := stored])
  {
    var elts', entries' := elts[i := e], entries[NumberedKey(namespace, i) := stored];
    forall k | k in entries'
      ensures k in base || Occupied(namespace, elts', k)
    {
      if k == NumberedKey(namespace, i) {
        assert i in elts';
      } else if k !in base {
        assert Occupied(namespace, elts, k);
        var j :| j in elts && k == NumberedKey(namespace, j);
        assert j in elts';
      }
    }
    forall j | j in elts'
      ensures NumberedKey(namespace, j) in entries' && Compare(entries'[NumberedKey(namespace, j)], elts'[j])
    {
      if j != i && NumberedKey(namespace, j) == NumberedKey(namespace, i) {
        NumberedKeysDiffer(namespace, i, j);
      }
    }
  }

  /** Removing an element. */
  lemma FilledRemove(namespace: string, base: map<ConfigKey, Entry>, elts: map<nat, Entry>,
                     entries: map<ConfigKey, Entry>, i: nat)
    requires Filled(namespace, base, elts, entries) && NoFakes(base)
    ensures Filled(namespace, base, elts - {i}, entries - {NumberedKey(namespace, i)})
  {
    var elts', entries' := elts - {i}, entries - {NumberedKey(namespace, i)};
    forall k | k in entries'
      ensures k in base || Occupied(namespace, elts', k)
    {
      if k !in base {
        assert Occupied(namespace, elts, k);
        var j :| j in elts && k == NumberedKey(namespace, j);
        assert j in elts';
      }
    }
    forall j | j in elts'
      ensures NumberedKey(namespace, j) in entries' && Compare(entries'[NumberedKey(namespace, j)], elts'[j])
    {
      if NumberedKey(namespace, j) == NumberedKey(namespace, i) {
        NumberedKeysDiffer(namespace, i, j);
      }
    }
  }

  function NumberedKeys(namespace: string, n: nat): set<ConfigKey> {
    set i | 0 <= i < n :: NumberedKey(namespace, i)
  }

  lemma LastNumberedKey(namespace: string, n: nat)
    ensures NumberedKeys(namespace, n + 1) == NumberedKeys(namespace, n) + {NumberedKey(namespace, n)}
    ensures NumberedKey(namespace, n) !in NumberedKeys(namespace, n)
  {
    forall i | 0 <= i < n ensures NumberedKey(namespace, i) != NumberedKey(namespace, n) {
      if NumberedKey(namespace, i) == NumberedKey(namespace, n) {
        NumberedKeysDiffer(namespace, i, n);
      }
    }
  }

  /** The first n keys are n keys. */
  lemma {:induction false} NumberedKeysCount(namespace: string, n: nat)
    ensures |NumberedKeys(namespace, n)| == n
  {
    if n > 0 {
      NumberedKeysCount(namespace, n - 1);
      LastNumberedKey(namespace, n - 1);
    }
  }

  /** A listing of a store filled with the first n elements has n entries. */
  lemma FilledListing(namespace: string, base: map<ConfigKey, Entry>, elts: map<nat, Entry>, n: nat,
                      a: Store, out: seq<Entry>)
    requires Filled(namespace, base, elts, a.entries) && NoFakes(base)
    requires forall i: nat :: i in elts <==> i < n
    requires ListsExactly(a, FAKE_CONFIG.typ, namespace, out)
    requires forall k | k in a.entries :: KeyOf(a.entries[k]) == k
    ensures |out| == n
  {
    var keys := NumberedKeys(namespace, n);
    NumberedKeysCount(namespace, n);
    var listed := seq(|out|, i requires 0 <= i < |out| => KeyOf(out[i]));
    forall i | 0 <= i < |listed| ensures listed[i] in keys {
      assert listed[i] in a.entries && listed[i].typ == FAKE_CONFIG.typ;
      assert Occupied(namespace, elts, listed[i]);
    }
    forall k | k in keys ensures k in listed {
      var i: nat :| i < n && k == NumberedKey(namespace, i);
      assert i in elts && k in a.entries && InList(k, FAKE_CONFIG.typ, namespace);
      var j :| 0 <= j < |out| && out[j] == a.entries[k];
      assert listed[j] == k;
    }
    OrderLength(listed, keys);
  }
}
