/**
 The operational contract of a store as a script over an empty one: it creates n elements, tries
 every forbidden operation, updates all elements and deletes them. Every failed check counts.
 */
module MapInvariant {
  import opened Wrappers
  import opened Codec
  import opened Counting
  import opened Text
  import opened Config
  import opened Templates
  import opened Runs
  import opened StoreContract
  import opened Refinement
  import opened ConfigStore
  import opened Mock

  /** How the script went: the orders it walked its maps in, and the revisions it noted. */
  datatype Walk = Walk(posts: seq<nat>, gets: seq<nat>, revs: map<nat, string>, again: seq<nat>, deletes: seq<nat>)

  /** The zero value of an entry, which a Go map gives for a missing key. */
  const NO_ENTRY := Entry(Meta("", "", "", "", map[], map[], ""), None)

  function Elt(elts: map<nat, Entry>, i: nat): Entry {
    if i in elts then elts[i] else NO_ENTRY
  }

  function Rev(revs: map<nat, string>, i: nat): string {
    if i in revs then revs[i] else ""
  }

  /** The store knows the test type. */
  ghost predicate Ready(r: ConfigStore)
    reads r, r.client.server, TemplateObjects(r.client.knownTypes)
  {
    && r.Valid()
    && KnowsFake(r.client.registry, r.client.descriptor)
  }

  /** The first n elements, each in one of its versions. */
  ghost predicate Elements(namespace: string, n: nat, elts: map<nat, Entry>) {
    && (forall i: nat :: i in elts <==> i < n)
    && (forall i {:trigger IsElement(namespace, i, elts[i])} | i in elts :: IsElement(namespace, i, elts[i]))
  }

  ghost predicate IsElement(namespace: string, i: nat, e: Entry) {
    exists value, revision :: e == WithRevision(MakeWith(namespace, i, value), revision)
  }

  /** The revisions noted for the elements read back so far are the ones stored. */
  ghost predicate Noted(namespace: string, order: seq<nat>, revs: map<nat, string>, entries: map<ConfigKey, Entry>) {
    forall k | 0 <= k < |order| :: NumberedKey(namespace, order[k]) in entries
      && order[k] in revs && revs[order[k]] == entries[NumberedKey(namespace, order[k])].meta.resourceVersion
  }

  /** The revisions noted for the elements from the i-th on are the ones stored. */
  ghost predicate CurrentFrom(namespace: string, i: nat, n: nat, revs: map<nat, string>,
                              entries: map<ConfigKey, Entry>)
  {
    forall j: nat {:trigger NumberedKey(namespace, j)} | i <= j < n :: NumberedKey(namespace, j) in entries
      && j in revs && revs[j] == entries[NumberedKey(namespace, j)].meta.resourceVersion
  }

  /** The element the script tries again: the first, or the zero entry when there is none. */
  function First(namespace: string, n: nat): Entry {
    if n > 0 then Make(namespace, 0) else NO_ENTRY
  }

  /** The first versions of the elements. */
  ghost predicate Made(namespace: string, elts: map<nat, Entry>) {
    forall i | i in elts :: elts[i] == Make(namespace, i)
  }

  // ---- What the script does, operation by operation ----------------------------------------

  /** The elements posted one after the other. */
  function Posts(log: Log, namespace: string, order: seq<nat>): Log {
    if order == [] then log
    else Did(Posts(log, namespace, order[..|order| - 1]), Create(Make(namespace, order[|order| - 1])))
  }

  /** The elements read back. */
  function Gets(log: Log, namespace: string, order: seq<nat>): Log {
    if order == [] then log
    else Did(Gets(log, namespace, order[..|order| - 1]), Get(FAKE_CONFIG.typ, Name(order[|order| - 1]), namespace))
  }

  /** The elements deleted. */
  function Deletes(log: Log, namespace: string, order: seq<nat>): Log {
    if order == [] then log
    else Did(Deletes(log, namespace, order[..|order| - 1]),
             Delete(FAKE_CONFIG.typ, Name(order[|order| - 1]), namespace))
  }

  /** The first n elements updated in turn, each with the revision noted for it. */
  function Updates(log: Log, namespace: string, revs: map<nat, string>, n: nat): Log {
    if n == 0 then log
    else Did(Updates(log, namespace, revs, n - 1), Update(Updated(namespace, n - 1, Rev(revs, n - 1))))
  }

  lemma PostsNext(log: Log, namespace: string, order: seq<nat>, i: nat)
    ensures Posts(log, namespace, order + [i]) == Did(Posts(log, namespace, order), Create(Make(namespace, i)))
  {
    assert (order + [i])[..|order|] == order;
  }

  lemma GetsNext(log: Log, namespace: string, order: seq<nat>, i: nat)
    ensures Gets(log, namespace, order + [i])
         == Did(Gets(log, namespace, order), Get(FAKE_CONFIG.typ, Name(i), namespace))
  {
    assert (order + [i])[..|order|] == order;
  }

  lemma DeletesNext(log: Log, namespace: string, order: seq<nat>, i: nat)
    ensures Deletes(log, namespace, order + [i])
         == Did(Deletes(log, namespace, order), Delete(FAKE_CONFIG.typ, Name(i), namespace))
  {
    assert (order + [i])[..|order|] == order;
  }

  /** Posting and putting the invalid entry. */
  function InvalidOps(log: Log, revision: string): Log {
    Did(Did(log, Create(InvalidEntry(revision))), Update(InvalidEntry(revision)))
  }

  /** Posting the first element a second time, then the invalid entry. */
  function PostOps(log: Log, first: Entry, revision: string): Log {
    InvalidOps(Did(log, Create(first)), revision)
  }

  /** Putting the first element without a revision, and with a bad one. */
  function RevisionOps(log: Log, first: Entry): Log {
    Did(Did(log, Update(first)), Update(WithRevision(first, "bad")))
  }

  /** Putting the missing entry, then the first element without its revision. */
  function PutOps(log: Log, first: Entry, revision: string): Log {
    RevisionOps(Did(log, Update(MissingEntry(revision))), first)
  }

  /** The writes that must fail. */
  function RefusedOps(log: Log, first: Entry, revision: string): Log {
    PutOps(PostOps(log, first, revision), first, revision)
  }

  /** Listing the missing type, and reading what has the missing name. */
  function MissingReads(log: Log, namespace: string): Log {
    Did(Did(Did(log, List(MISSING, namespace)), Get(FAKE_CONFIG.typ, MISSING, "")), Get(MISSING, MISSING, ""))
  }

  /** Deleting what is not there. */
  function MissingDeletes(log: Log): Log {
    Did(Did(log, Delete(MISSING, MISSING, "")), Delete(FAKE_CONFIG.typ, MISSING, ""))
  }

  /** Everything forbidden. */
  function ForbiddenOps(log: Log, first: Entry, revision: string, namespace: string): Log {
    MissingDeletes(MissingReads(RefusedOps(log, first, revision), namespace))
  }

  /** Listing the elements. */
  function CountOps(log: Log, namespace: string): Log {
    Did(log, List(FAKE_CONFIG.typ, namespace))
  }

  /** The script once its elements are created and read back. */
  function Rest(log: Log, namespace: string, n: nat, revs: map<nat, string>,
                again: seq<nat>, deletes: seq<nat>): Log
  {
    var checked := CountOps(ForbiddenOps(log, First(namespace, n), Rev(revs, 0), namespace), namespace);
    CountOps(Deletes(Gets(Updates(checked, namespace, revs, n), namespace, again), namespace, deletes), namespace)
  }

  /** Every operation of the script, in order. */
  function Script(log: Log, namespace: string, n: nat, w: Walk): Log {
    Rest(Gets(Posts(log, namespace, w.posts), namespace, w.gets), namespace, n, w.revs, w.again, w.deletes)
  }

  /** The numbers below n. */
  ghost function Below(n: nat): (numbers: set<nat>)
    ensures forall i: nat :: i in numbers <==> i < n
  {
    if n == 0 then {} else Below(n - 1) + {n - 1}
  }

  /** Each loop went once over the numbers below n. */
  ghost predicate WalksAll(n: nat, w: Walk) {
    && Orders(w.posts, Below(n)) && Orders(w.gets, Below(n))
    && Orders(w.again, Below(n)) && Orders(w.deletes, Below(n))
  }

  lemma ElementFacts(r: ConfigStore, namespace: string, i: nat, e: Entry)
    requires Ready(r) && IsElement(namespace, i, e)
    ensures KeyOf(e) == NumberedKey(namespace, i)
    ensures WellTyped(r.client.registry, e.spec) && Acceptable(r.client.registry, r.client.descriptor, e)
    ensures Matching(r.client.descriptor, Create(e)) && Matching(r.client.descriptor, Update(e))
    ensures forall revision :: Compare(Kept(e, revision), e)
  {
    var value, revision :| e == WithRevision(MakeWith(namespace, i, value), revision);
    FakeTyped(r.client.registry, r.client.descriptor, Name(i), [[Str("key"), Str(value)]]);
    FakeAcceptable(r.client.registry, r.client.descriptor, e, Name(i), [[Str("key"), Str(value)]]);
  }

  method MakeElements(namespace: string, n: nat) returns (elts: map<nat, Entry>)
    ensures Elements(namespace, n, elts) && Made(namespace, elts) && Elt(elts, 0) == First(namespace, n)
  {
    elts := map[];
    for i := 0 to n
      invariant forall j: nat :: j in elts <==> j < i
      invariant forall j | j in elts :: elts[j] == Make(namespace, j)
    {
      elts := elts[i := Make(namespace, i)];
    }
    forall i | i in elts ensures IsElement(namespace, i, elts[i]) {
      assert elts[i] == WithRevision(MakeWith(namespace, i, Decimal(i)), "");
    }
  }

  /** Post one element that is not there yet. */
  method PostOne(r: ConfigStore, namespace: string, ghost base: map<ConfigKey, Entry>, ghost done: map<nat, Entry>,
                 i: nat, elt: Entry, ghost log: Log, ghost order: seq<nat>)
    returns (errors: int)
    requires Ready(r) && Filled(namespace, base, done, r.abs.entries) && NoFakes(base)
    requires i !in done && IsElement(namespace, i, elt) && elt == Make(namespace, i)
    requires r.log == Posts(log, namespace, order)
    modifies r`abs, r`log, r.client.server
    ensures Ready(r) && errors == 0 && Filled(namespace, base, done[i := elt], r.abs.entries)
    ensures r.log == Posts(log, namespace, order + [i])
  {
    ElementFacts(r, namespace, i, elt);
    NotYetPosted(namespace, base, done, r.abs.entries, i);
    ghost var before := r.abs.entries;
    var res := r.Create(elt);
    errors := if res.Err? then 1 else 0;
    PostsNext(log, namespace, order, i);
    FilledPut(namespace, base, done, before, i, elt, Kept(elt, res.value));
  }

  /** Post all elements. */
  method PostAll(r: ConfigStore, namespace: string, n: nat, elts: map<nat, Entry>)
    returns (errors: int, ghost order: seq<nat>)
    requires Ready(r) && Elements(namespace, n, elts) && Made(namespace, elts) && NoFakes(r.abs.entries)
    modifies r`abs, r`log, r.client.server
    ensures Ready(r) && errors == 0
    ensures Filled(namespace, old(r.abs.entries), elts, r.abs.entries)
    ensures Orders(order, elts.Keys) && r.log == Posts(old(r.log), namespace, order)
  {
    errors, order := 0, [];
    ghost var base, done: map<nat, Entry> := r.abs.entries, map[];
    ghost var log := r.log;
    var left := elts.Keys;
    while left != {}
      invariant left <= elts.Keys && Ready(r) && errors == 0
      invariant Part(done, elts, elts.Keys - left) && Filled(namespace, base, done, r.abs.entries)
      invariant Walked(order, elts.Keys, left) && r.log == Posts(log, namespace, order)
      decreases left
    {
      var i :| i in left;
      PartPut(done, elts, left, i);
      WalkOn(order, elts.Keys, left, i);
      var e := PostOne(r, namespace, base, done, i, elts[i], log, order);
      errors, order := errors + e, order + [i];
      left, done := left - {i}, done[i := elts[i]];
    }
    WholePart(done, elts);
    WalkedAll(order, elts.Keys, {});
  }

  /** The elements with some of the numbers. */
  ghost predicate Part(part: map<nat, Entry>, elts: map<nat, Entry>, keys: set<nat>) {
    && (forall i | i in part :: i in keys && i in elts && part[i] == elts[i])
    && (forall i | i in keys :: i in part)
  }

  lemma PartPut(part: map<nat, Entry>, elts: map<nat, Entry>, left: set<nat>, i: nat)
    requires i in left && left <= elts.Keys && Part(part, elts, elts.Keys - left)
    ensures i !in part && Part(part[i := elts[i]], elts, elts.Keys - (left - {i}))
  {
  }

  lemma WholePart(part: map<nat, Entry>, elts: map<nat, Entry>)
    requires Part(part, elts, elts.Keys)
    ensures part == elts
  {
  }

  lemma NotYetPosted(namespace: string, base: map<ConfigKey, Entry>, done: map<nat, Entry>,
                     entries: map<ConfigKey, Entry>, i: nat)
    requires Filled(namespace, base, done, entries) && NoFakes(base) && i !in done
    ensures NumberedKey(namespace, i) !in entries
  {
    if NumberedKey(namespace, i) in entries {
      assert Occupied(namespace, done, NumberedKey(namespace, i));
      var j :| j in done && NumberedKey(namespace, i) == NumberedKey(namespace, j);
      NumberedKeysDiffer(namespace, i, j);
    }
  }

  /** The store holds the element under its number, whatever its revision. */
  ghost predicate HoldsElement(namespace: string, i: nat, e: Entry, entries: map<ConfigKey, Entry>) {
    && IsElement(namespace, i, e)
    && NumberedKey(namespace, i) in entries && Compare(entries[NumberedKey(namespace, i)], e)
  }

  /** Read one element back and compare it. */
  method CheckOne(r: ConfigStore, namespace: string, i: nat, elt: Entry, ghost log: Log, ghost order: seq<nat>)
    returns (errors: int, revision: string)
    requires Ready(r) && HoldsElement(namespace, i, elt, r.abs.entries)
    requires r.log == Gets(log, namespace, order)
    modifies r`log
    ensures Ready(r) && errors == 0
    ensures revision == r.abs.entries[NumberedKey(namespace, i)].meta.resourceVersion
    ensures r.log == Gets(log, namespace, order + [i])
  {
    ElementFacts(r, namespace, i, elt);
    var v1 := r.Get(FAKE_CONFIG.typ, elt.meta.name, elt.meta.namespace);
    assert ConfigKey(FAKE_CONFIG.typ, elt.meta.namespace, elt.meta.name) == NumberedKey(namespace, i);
    GetsNext(log, namespace, order, i);
    if v1.None? || !Compare(v1.value, elt) {
      return 1, "";
    }
    return 0, v1.value.meta.resourceVersion;
  }

  /** One round of the loop that reads the elements back. */
  method CheckNext(r: ConfigStore, namespace: string, i: nat, elt: Entry, revs: map<nat, string>,
                   ghost log: Log, ghost order: seq<nat>)
    returns (errors: int, noted: map<nat, string>)
    requires Ready(r) && HoldsElement(namespace, i, elt, r.abs.entries)
    requires Noted(namespace, order, revs, r.abs.entries) && r.log == Gets(log, namespace, order)
    modifies r`log
    ensures Ready(r) && errors == 0 && Noted(namespace, order + [i], noted, r.abs.entries)
    ensures r.log == Gets(log, namespace, order + [i])
  {
    var revision;
    errors, revision := CheckOne(r, namespace, i, elt, log, order);
    noted := revs;
    if errors == 0 {
      NoteRevision(namespace, order, revs, r.abs.entries, i, revision);
      noted := revs[i := revision];
    }
  }

  /** The loop, over a store that holds all elements. */
  method ReadBack(r: ConfigStore, namespace: string, elts: map<nat, Entry>)
    returns (errors: int, revs: map<nat, string>, ghost order: seq<nat>)
    requires Ready(r)
    requires forall i {:trigger HoldsElement(namespace, i, elts[i], r.abs.entries)} | i in elts ::
               HoldsElement(namespace, i, elts[i], r.abs.entries)
    modifies r`log
    ensures Ready(r) && errors == 0 && Noted(namespace, order, revs, r.abs.entries)
    ensures Orders(order, elts.Keys) && r.log == Gets(old(r.log), namespace, order)
  {
    errors, revs, order := 0, map[], [];
    ghost var log, entries := r.log, r.abs.entries;
    var left := elts.Keys;
    while left != {}
      invariant left <= elts.Keys && Ready(r) && errors == 0
      invariant r.abs.entries == entries && Noted(namespace, order, revs, entries)
      invariant Walked(order, elts.Keys, left) && r.log == Gets(log, namespace, order)
      decreases left
    {
      var i :| i in left;
      assert HoldsElement(namespace, i, elts[i], entries);
      var e;
      e, revs := CheckNext(r, namespace, i, elts[i], revs, log, order);
      WalkOn(order, elts.Keys, left, i);
      errors, order, left := errors + e, order + [i], left - {i};
    }
    WalkedAll(order, elts.Keys, {});
  }

  /** Check that elements are stored, noting their revisions. */
  method CheckStored(r: ConfigStore, namespace: string, elts: map<nat, Entry>, ghost base: map<ConfigKey, Entry>,
                     n: nat)
    returns (errors: int, revs: map<nat, string>, ghost order: seq<nat>)
    requires Ready(r) && Elements(namespace, n, elts) && Filled(namespace, base, elts, r.abs.entries)
    modifies r`log
    ensures Ready(r) && errors == 0 && CurrentFrom(namespace, 0, n, revs, r.abs.entries)
    ensures Orders(order, elts.Keys) && r.log == Gets(old(r.log), namespace, order)
  {
    forall i | i in elts ensures HoldsElement(namespace, i, elts[i], r.abs.entries) {
      assert IsElement(namespace, i, elts[i]) && NumberedKey(namespace, i) in r.abs.entries;
    }
    errors, revs, order := ReadBack(r, namespace, elts);
    AllCurrent(namespace, n, elts, order, revs, r.abs.entries);
  }

  lemma AllCurrent(namespace: string, n: nat, elts: map<nat, Entry>, order: seq<nat>, revs: map<nat, string>,
                   entries: map<ConfigKey, Entry>)
    requires Elements(namespace, n, elts) && Orders(order, elts.Keys) && Noted(namespace, order, revs, entries)
    ensures CurrentFrom(namespace, 0, n, revs, entries)
  {
    forall j: nat | j < n
      ensures NumberedKey(namespace, j) in entries
      ensures j in revs && revs[j] == entries[NumberedKey(namespace, j)].meta.resourceVersion
    {
      assert j in elts.Keys && j in order;
    }
  }

  lemma NoteRevision(namespace: string, order: seq<nat>, revs: map<nat, string>,
                     entries: map<ConfigKey, Entry>, i: nat, revision: string)
    requires Noted(namespace, order, revs, entries) && NumberedKey(namespace, i) in entries
    requires revision == entries[NumberedKey(namespace, i)].meta.resourceVersion
    ensures Noted(namespace, order + [i], revs[i := revision], entries)
  {
  }

  /** The name of the missing entry is the name of no element. */
  lemma OtherNames(namespace: string, i: nat)
    ensures Name(i) != MISSING
  {
    assert Name(i)[0] == 'f' && MISSING[0] == 'm';
  }

  /** A store filled with elements has nothing of the missing type. */
  lemma NothingMissing(namespace: string, base: map<ConfigKey, Entry>, elts: map<nat, Entry>,
                       entries: map<ConfigKey, Entry>, k: ConfigKey)
    requires Filled(namespace, base, elts, entries) && NoFakes(base) && k.typ == MISSING
    ensures k !in entries
  {
    assert |MISSING| != |FAKE_CONFIG.typ|;
    assert !Occupied(namespace, elts, k);
  }

  lemma MissingNotListed(namespace: string, base: map<ConfigKey, Entry>, elts: map<nat, Entry>,
                         a: Store, out: seq<Entry>)
    requires Filled(namespace, base, elts, a.entries) && NoFakes(base)
    requires ListsExactly(a, MISSING, namespace, out)
    ensures out == []
  {
    forall k: ConfigKey | k.typ == MISSING ensures k !in a.entries {
      NothingMissing(namespace, base, elts, a.entries, k);
    }
    NothingOfType(a, MISSING, namespace, out);
  }

  /** Nothing has the missing name. */
  lemma MissingName(namespace: string, base: map<ConfigKey, Entry>, elts: map<nat, Entry>,
                    entries: map<ConfigKey, Entry>)
    requires Filled(namespace, base, elts, entries) && NoFakes(base)
    ensures ConfigKey(FAKE_CONFIG.typ, "", MISSING) !in entries
  {
    forall i: nat ensures NumberedKey(namespace, i).name != MISSING {
      OtherNames(namespace, i);
    }
    assert !Occupied(namespace, elts, ConfigKey(FAKE_CONFIG.typ, "", MISSING));
  }

  /** A creation that must fail. */
  method RefusedCreate(r: ConfigStore, e: Entry) returns (errors: int)
    requires Ready(r) && WellTyped(r.client.registry, e.spec) && Matching(r.client.descriptor, Create(e))
    requires !CreateAllowed(r.client.registry, r.client.descriptor, r.abs, e)
    modifies r`abs, r`log, r.client.server
    ensures Ready(r) && errors == 0 && r.abs == old(r.abs)
    ensures r.log == Did(old(r.log), Create(e))
  {
    errors := 0;
    var res := r.Create(e);
    if res.Ok? {
      errors := errors + 1;
    }
  }

  /** An update that must fail. */
  method RefusedUpdate(r: ConfigStore, e: Entry) returns (errors: int)
    requires Ready(r) && WellTyped(r.client.registry, e.spec) && Matching(r.client.descriptor, Update(e))
    requires !UpdateAllowed(r.client.registry, r.client.descriptor, r.abs, e)
    modifies r`abs, r`log, r.client.server
    ensures Ready(r) && errors == 0 && r.abs == old(r.abs)
    ensures r.log == Did(old(r.log), Update(e))
  {
    errors := 0;
    var res := r.Update(e);
    if res.Ok? {
      errors := errors + 1;
    }
  }

  function InvalidEntry(revision: string): Entry {
    Entry(Meta(FAKE_CONFIG.typ, "invalid", "", "", map[], map[], revision), FakeSpec("", []))
  }

  function MissingEntry(revision: string): Entry {
    Entry(Meta(FAKE_CONFIG.typ, MISSING, "", "", map[], map[], revision), FakeSpec(MISSING, []))
  }

  lemma InvalidFacts(r: ConfigStore, revision: string)
    requires Ready(r)
    ensures var e := InvalidEntry(revision);
            && WellTyped(r.client.registry, e.spec)
            && Matching(r.client.descriptor, Create(e)) && Matching(r.client.descriptor, Update(e))
            && !Acceptable(r.client.registry, r.client.descriptor, e)
  {
    FakeTyped(r.client.registry, r.client.descriptor, "", []);
    FakeAcceptable(r.client.registry, r.client.descriptor, InvalidEntry(revision), "", []);
  }

  lemma MissingFacts(r: ConfigStore, namespace: string, base: map<ConfigKey, Entry>, elts: map<nat, Entry>,
                     revision: string)
    requires Ready(r) && Filled(namespace, base, elts, r.abs.entries) && NoFakes(base)
    ensures var e := MissingEntry(revision);
            && WellTyped(r.client.registry, e.spec) && Matching(r.client.descriptor, Update(e))
            && KeyOf(e) !in r.abs.entries
  {
    FakeTyped(r.client.registry, r.client.descriptor, MISSING, []);
    MissingName(namespace, base, elts, r.abs.entries);
  }

  /** The first element, or the zero entry when there is none, cannot be posted again or put without its revision. */
  lemma FirstElementFacts(r: ConfigStore, namespace: string, base: map<ConfigKey, Entry>, elts: map<nat, Entry>, n: nat,
                          revision: string)
    requires Ready(r) && Filled(namespace, base, elts, r.abs.entries) && Elements(namespace, n, elts)
    requires revision !in r.abs.revisions
    ensures var e := WithRevision(Elt(elts, 0), revision);
            && WellTyped(r.client.registry, e.spec)
            && Matching(r.client.descriptor, Create(e)) && Matching(r.client.descriptor, Update(e))
            && !CreateAllowed(r.client.registry, r.client.descriptor, r.abs, e)
            && !UpdateAllowed(r.client.registry, r.client.descriptor, r.abs, e)
  {
    var e := WithRevision(Elt(elts, 0), revision);
    if 0 in elts {
      assert IsElement(namespace, 0, elts[0]);
      var value, revision' :| elts[0] == WithRevision(MakeWith(namespace, 0, value), revision');
      assert e == WithRevision(MakeWith(namespace, 0, value), revision);
      ElementFacts(r, namespace, 0, e);
      assert KeyOf(e) in r.abs.entries;
      assert r.abs.entries[KeyOf(e)].meta.resourceVersion in r.abs.revisions;
    } else {
      assert e.spec.None? && !Acceptable(r.client.registry, r.client.descriptor, e);
    }
  }

  /** Every write that must fail: posting twice, invalid, missing, no revision, bad revision. */
  method CheckRefusedWrites(r: ConfigStore, namespace: string, n: nat, elts: map<nat, Entry>, first: Entry,
                            revision: string, ghost base: map<ConfigKey, Entry>)
    returns (errors: int)
    requires Ready(r) && Elements(namespace, n, elts) && Filled(namespace, base, elts, r.abs.entries) && NoFakes(base)
    requires first == Elt(elts, 0) && first.meta.resourceVersion == ""
    modifies r`abs, r`log, r.client.server
    ensures Ready(r) && errors == 0 && r.abs == old(r.abs)
    ensures r.log == RefusedOps(old(r.log), first, revision)
  {
    ghost var before := r.abs.entries;
    var e1 := CheckPosts(r, namespace, n, elts, first, revision, base);
    assert r.abs.entries == before;
    var e2 := CheckPuts(r, namespace, n, elts, first, revision, base);
    return e1 + e2;
  }

  /** Posting the first element a second time, and posting and putting an invalid entry. */
  method CheckPosts(r: ConfigStore, namespace: string, n: nat, elts: map<nat, Entry>, first: Entry, revision: string,
                    ghost base: map<ConfigKey, Entry>)
    returns (errors: int)
    requires Ready(r) && Elements(namespace, n, elts) && Filled(namespace, base, elts, r.abs.entries)
    requires first == Elt(elts, 0) && first.meta.resourceVersion == ""
    modifies r`abs, r`log, r.client.server
    ensures Ready(r) && errors == 0 && r.abs == old(r.abs)
    ensures r.log == PostOps(old(r.log), first, revision)
  {
    var e1 := CheckFirst(r, namespace, n, elts, first, base);
    var e2 := CheckInvalid(r, revision);
    return e1 + e2;
  }

  /** Putting a missing entry, and the first element without its revision. */
  method CheckPuts(r: ConfigStore, namespace: string, n: nat, elts: map<nat, Entry>, first: Entry, revision: string,
                   ghost base: map<ConfigKey, Entry>)
    returns (errors: int)
    requires Ready(r) && Elements(namespace, n, elts) && Filled(namespace, base, elts, r.abs.entries) && NoFakes(base)
    requires first == Elt(elts, 0) && first.meta.resourceVersion == ""
    modifies r`abs, r`log, r.client.server
    ensures Ready(r) && errors == 0 && r.abs == old(r.abs)
    ensures r.log == PutOps(old(r.log), first, revision)
  {
    ghost var before := r.abs;
    var e1 := RefuseMissing(r, namespace, elts, revision, base);
    assert r.abs == before;
    var e2 := CheckRevisions(r, namespace, n, elts, first, base);
    return e1 + e2;
  }

  /** Posting and putting an invalid entry. */
  method CheckInvalid(r: ConfigStore, revision: string) returns (errors: int)
    requires Ready(r)
    modifies r`abs, r`log, r.client.server
    ensures Ready(r) && errors == 0 && r.abs == old(r.abs)
    ensures r.log == InvalidOps(old(r.log), revision)
  {
    InvalidFacts(r, revision);
    var invalid := InvalidEntry(revision);
    var e1 := RefusedCreate(r, invalid);
    var e2 := RefusedUpdate(r, invalid);
    return e1 + e2;
  }

  /** Putting an entry that is missing. */
  method RefuseMissing(r: ConfigStore, namespace: string, ghost elts: map<nat, Entry>, revision: string,
                       ghost base: map<ConfigKey, Entry>)
    returns (errors: int)
    requires Ready(r) && Filled(namespace, base, elts, r.abs.entries) && NoFakes(base)
    modifies r`abs, r`log, r.client.server
    ensures Ready(r) && errors == 0 && r.abs == old(r.abs)
    ensures r.log == Did(old(r.log), Update(MissingEntry(revision)))
  {
    MissingFacts(r, namespace, base, elts, revision);
    errors := RefusedUpdate(r, MissingEntry(revision));
  }

  /** Posting the first element a second time. */
  method CheckFirst(r: ConfigStore, namespace: string, n: nat, elts: map<nat, Entry>, first: Entry,
                    ghost base: map<ConfigKey, Entry>)
    returns (errors: int)
    requires Ready(r) && Elements(namespace, n, elts) && Filled(namespace, base, elts, r.abs.entries)
    requires first == Elt(elts, 0) && first.meta.resourceVersion == ""
    modifies r`abs, r`log, r.client.server
    ensures Ready(r) && errors == 0 && r.abs == old(r.abs)
    ensures r.log == Did(old(r.log), Create(first))
  {
    assert first == WithRevision(first, "");
    FirstElementFacts(r, namespace, base, elts, n, "");
    errors := RefusedCreate(r, first);
  }

  /** Putting the first element without a revision, and with a bad one. */
  method CheckRevisions(r: ConfigStore, namespace: string, n: nat, elts: map<nat, Entry>, first: Entry,
                        ghost base: map<ConfigKey, Entry>)
    returns (errors: int)
    requires Ready(r) && Elements(namespace, n, elts) && Filled(namespace, base, elts, r.abs.entries)
    requires first == Elt(elts, 0) && first.meta.resourceVersion == ""
    modifies r`abs, r`log, r.client.server
    ensures Ready(r) && errors == 0 && r.abs == old(r.abs)
    ensures r.log == RevisionOps(old(r.log), first)
  {
    assert first == WithRevision(first, "");
    ghost var before := r.abs;
    var e1 := RefuseRevision(r, namespace, n, elts, first, "", base);
    assert r.abs == before;
    BadIsNoRevision(r);
    var e2 := RefuseRevision(r, namespace, n, elts, first, "bad", base);
    return e1 + e2;
  }

  /** Putting the first element with a revision that was never handed out. */
  method RefuseRevision(r: ConfigStore, namespace: string, ghost n: nat, ghost elts: map<nat, Entry>, first: Entry,
                        revision: string, ghost base: map<ConfigKey, Entry>)
    returns (errors: int)
    requires Ready(r) && Elements(namespace, n, elts) && Filled(namespace, base, elts, r.abs.entries)
    requires first == Elt(elts, 0) && revision !in r.abs.revisions
    modifies r`abs, r`log, r.client.server
    ensures Ready(r) && errors == 0 && r.abs == old(r.abs)
    ensures r.log == Did(old(r.log), Update(WithRevision(first, revision)))
  {
    FirstElementFacts(r, namespace, base, elts, n, revision);
    errors := RefusedUpdate(r, WithRevision(first, revision));
  }

  lemma BadIsNoRevision(r: ConfigStore)
    requires Ready(r)
    ensures "bad" !in r.abs.revisions
  {
    var bad := "bad";
    assert 'b' in bad;
    r.RevisionsAreDecimal(bad, 'b');
  }

  /** Reads and deletions of what is not there. */
  method CheckMissing(r: ConfigStore, namespace: string, n: nat, elts: map<nat, Entry>,
                      ghost base: map<ConfigKey, Entry>)
    returns (errors: int)
    requires Ready(r) && Elements(namespace, n, elts) && Filled(namespace, base, elts, r.abs.entries) && NoFakes(base)
    modifies r`abs, r`log, r.client.server
    ensures Ready(r) && errors == 0 && r.abs == old(r.abs)
    ensures r.log == MissingDeletes(MissingReads(old(r.log), namespace))
  {
    ghost var before := r.abs;
    var e1 := CheckMissingReads(r, namespace, elts, base);
    assert r.abs == before;
    var e2 := CheckMissingDeletes(r, namespace, elts, base);
    return e1 + e2;
  }

  /** Neither the missing type is listed, nor anything under the missing name found. */
  method CheckMissingReads(r: ConfigStore, namespace: string, ghost elts: map<nat, Entry>,
                           ghost base: map<ConfigKey, Entry>)
    returns (errors: int)
    requires Ready(r) && Filled(namespace, base, elts, r.abs.entries) && NoFakes(base)
    modifies r`log
    ensures Ready(r) && errors == 0
    ensures r.log == MissingReads(old(r.log), namespace)
  {
    errors := 0;
    var l, _ := r.List(MISSING, namespace);
    MissingNotListed(namespace, base, elts, r.abs, l);
    if |l| > 0 {
      errors := errors + 1;
    }
    MissingName(namespace, base, elts, r.abs.entries);
    var v := r.Get(FAKE_CONFIG.typ, MISSING, "");
    if v.Some? {
      errors := errors + 1;
    }
    NothingMissing(namespace, base, elts, r.abs.entries, ConfigKey(MISSING, "", MISSING));
    v := r.Get(MISSING, MISSING, "");
    if v.Some? {
      errors := errors + 1;
    }
  }

  /** Neither of them is deleted. */
  method CheckMissingDeletes(r: ConfigStore, namespace: string, ghost elts: map<nat, Entry>,
                             ghost base: map<ConfigKey, Entry>)
    returns (errors: int)
    requires Ready(r) && Filled(namespace, base, elts, r.abs.entries) && NoFakes(base)
    modifies r`abs, r`log, r.client.server
    ensures Ready(r) && errors == 0 && r.abs == old(r.abs)
    ensures r.log == MissingDeletes(old(r.log))
  {
    errors := 0;
    ghost var before := r.abs;
    MissingName(namespace, base, elts, r.abs.entries);
    NothingMissing(namespace, base, elts, r.abs.entries, ConfigKey(MISSING, "", MISSING));
    var err := r.Delete(MISSING, MISSING, "");
    if err.None? {
      errors := errors + 1;
    }
    assert r.abs == before;
    err := r.Delete(FAKE_CONFIG.typ, MISSING, "");
    if err.None? {
      errors := errors + 1;
    }
  }

  /** List the elements and compare their number. */
  method CheckCount(r: ConfigStore, namespace: string, n: nat, elts: map<nat, Entry>, ghost base: map<ConfigKey, Entry>)
    returns (errors: int)
    requires Ready(r) && Filled(namespace, base, elts, r.abs.entries) && NoFakes(base)
    requires forall i: nat :: i in elts <==> i < n
    modifies r`log
    ensures Ready(r) && errors == 0
    ensures r.log == CountOps(old(r.log), namespace)
  {
    errors := 0;
    var l, err := r.List(FAKE_CONFIG.typ, namespace);
    if err != [] {
      errors := errors + 1;
    }
    FilledListing(namespace, base, elts, n, r.abs, l);
    if |l| != n {
      errors := errors + 1;
    }
  }

  function Updated(namespace: string, i: nat, revision: string): Entry {
    WithRevision(MakeWith(namespace, i, Decimal(i) + "(updated)"), revision)
  }

  lemma UpdatedIsElement(namespace: string, i: nat, revision: string)
    ensures IsElement(namespace, i, Updated(namespace, i, revision))
  {
    var value := Decimal(i) + "(updated)";
    assert Updated(namespace, i, revision) == WithRevision(MakeWith(namespace, i, value), revision);
  }

  /** Put the new version of one element with the revision noted before. */
  method UpdateOne(r: ConfigStore, namespace: string, ghost base: map<ConfigKey, Entry>, ghost elts: map<nat, Entry>,
                   i: nat, elt: Entry)
    returns (errors: int, ghost stored: Entry)
    requires Ready(r) && Filled(namespace, base, elts, r.abs.entries) && NoFakes(base)
    requires IsElement(namespace, i, elt) && NumberedKey(namespace, i) in r.abs.entries
    requires r.abs.entries[NumberedKey(namespace, i)].meta.resourceVersion == elt.meta.resourceVersion
    modifies r`abs, r`log, r.client.server
    ensures Ready(r) && errors == 0 && Filled(namespace, base, elts[i := elt], r.abs.entries)
    ensures r.abs.entries == old(r.abs.entries)[NumberedKey(namespace, i) := stored]
    ensures r.log == Did(old(r.log), Update(elt))
  {
    ElementFacts(r, namespace, i, elt);
    ghost var before := r.abs.entries;
    var res := r.Update(elt);
    errors := if res.Err? then 1 else 0;
    stored := Kept(elt, res.value);
    FilledPut(namespace, base, elts, before, i, elt, stored);
  }

  lemma ElementsPut(namespace: string, n: nat, elts: map<nat, Entry>, i: nat, elt: Entry)
    requires Elements(namespace, n, elts) && i < n && IsElement(namespace, i, elt)
    ensures Elements(namespace, n, elts[i := elt])
  {
    var elts' := elts[i := elt];
    forall j | j in elts' ensures IsElement(namespace, j, elts'[j]) {
      if j != i {
        assert IsElement(namespace, j, elts[j]);
      }
    }
  }

  /** An update leaves the revisions of the elements after it as noted. */
  lemma OthersStayCurrent(namespace: string, i: nat, n: nat, revs: map<nat, string>,
                          before: map<ConfigKey, Entry>, e: Entry)
    requires CurrentFrom(namespace, i, n, revs, before)
    ensures CurrentFrom(namespace, i + 1, n, revs, before[NumberedKey(namespace, i) := e])
  {
    forall j: nat | i + 1 <= j < n ensures NumberedKey(namespace, j) != NumberedKey(namespace, i) {
      if NumberedKey(namespace, j) == NumberedKey(namespace, i) {
        NumberedKeysDiffer(namespace, i, j);
      }
    }
  }

  /** One round of the update loop. */
  method UpdateNext(r: ConfigStore, namespace: string, ghost n: nat, elts: map<nat, Entry>, revs: map<nat, string>,
                    ghost base: map<ConfigKey, Entry>, i: nat, ghost log: Log)
    returns (errors: int, updated: map<nat, Entry>)
    requires Ready(r) && Elements(namespace, n, elts) && Filled(namespace, base, elts, r.abs.entries) && NoFakes(base)
    requires CurrentFrom(namespace, i, n, revs, r.abs.entries) && i < n
    requires r.log == Updates(log, namespace, revs, i)
    modifies r`abs, r`log, r.client.server
    ensures Ready(r) && errors == 0 && Elements(namespace, n, updated)
    ensures Filled(namespace, base, updated, r.abs.entries)
    ensures CurrentFrom(namespace, i + 1, n, revs, r.abs.entries)
    ensures r.log == Updates(log, namespace, revs, i + 1)
  {
    var elt := Updated(namespace, i, Rev(revs, i));
    UpdatedIsElement(namespace, i, Rev(revs, i));
    ghost var before := r.abs.entries;
    ghost var stored;
    errors, stored := UpdateOne(r, namespace, base, elts, i, elt);
    ElementsPut(namespace, n, elts, i, elt);
    OthersStayCurrent(namespace, i, n, revs, before, stored);
    updated := elts[i := elt];
  }

  /** Update all elements with the revisions noted before. */
  method UpdateAll(r: ConfigStore, namespace: string, n: nat, elts: map<nat, Entry>, revs: map<nat, string>,
                   ghost base: map<ConfigKey, Entry>)
    returns (errors: int, updated: map<nat, Entry>)
    requires Ready(r) && Elements(namespace, n, elts) && Filled(namespace, base, elts, r.abs.entries) && NoFakes(base)
    requires CurrentFrom(namespace, 0, n, revs, r.abs.entries)
    modifies r`abs, r`log, r.client.server
    ensures Ready(r) && errors == 0 && Elements(namespace, n, updated)
    ensures Filled(namespace, base, updated, r.abs.entries)
    ensures r.log == Updates(old(r.log), namespace, revs, n)
  {
    errors, updated := 0, elts;
    ghost var log := r.log;
    for i := 0 to n
      invariant Ready(r) && errors == 0 && Elements(namespace, n, updated)
      invariant Filled(namespace, base, updated, r.abs.entries)
      invariant CurrentFrom(namespace, i, n, revs, r.abs.entries)
      invariant r.log == Updates(log, namespace, revs, i)
    {
      var e;
      e, updated := UpdateNext(r, namespace, n, updated, revs, base, i, log);
      errors := errors + e;
    }
  }

  /** Delete one element. */
  method DeleteOne(r: ConfigStore, namespace: string, ghost base: map<ConfigKey, Entry>, ghost rest: map<nat, Entry>,
                   i: nat, elt: Entry, ghost log: Log, ghost order: seq<nat>)
    returns (errors: int)
    requires Ready(r) && Filled(namespace, base, rest, r.abs.entries) && NoFakes(base)
    requires i in rest && IsElement(namespace, i, elt)
    requires r.log == Deletes(log, namespace, order)
    modifies r`abs, r`log, r.client.server
    ensures Ready(r) && errors == 0 && Filled(namespace, base, rest - {i}, r.abs.entries)
    ensures r.log == Deletes(log, namespace, order + [i])
  {
    ElementFacts(r, namespace, i, elt);
    ghost var before := r.abs.entries;
    var err := r.Delete(FAKE_CONFIG.typ, elt.meta.name, elt.meta.namespace);
    assert ConfigKey(FAKE_CONFIG.typ, elt.meta.namespace, elt.meta.name) == NumberedKey(namespace, i);
    DeletesNext(log, namespace, order, i);
    errors := if err.Some? then 1 else 0;
    FilledRemove(namespace, base, rest, before, i);
  }

  /** Delete all elements. */
  method DeleteAll(r: ConfigStore, namespace: string, n: nat, elts: map<nat, Entry>, ghost base: map<ConfigKey, Entry>)
    returns (errors: int, ghost order: seq<nat>)
    requires Ready(r) && Elements(namespace, n, elts) && Filled(namespace, base, elts, r.abs.entries) && NoFakes(base)
    modifies r`abs, r`log, r.client.server
    ensures Ready(r) && errors == 0 && Filled(namespace, base, map[], r.abs.entries)
    ensures Orders(order, elts.Keys) && r.log == Deletes(old(r.log), namespace, order)
  {
    errors, order := 0, [];
    ghost var log := r.log;
    var left := elts.Keys;
    ghost var rest := elts;
    while left != {}
      invariant left <= elts.Keys && Ready(r) && errors == 0
      invariant Part(rest, elts, left) && Filled(namespace, base, rest, r.abs.entries)
      invariant Walked(order, elts.Keys, left) && r.log == Deletes(log, namespace, order)
      decreases left
    {
      var i :| i in left;
      var e := DeleteOne(r, namespace, base, rest, i, elts[i], log, order);
      errors := errors + e;
      WalkOn(order, elts.Keys, left, i);
      order := order + [i];
      left, rest := left - {i}, rest - {i};
    }
    NoPart(rest, elts);
    WalkedAll(order, elts.Keys, {});
  }

  lemma NoPart(part: map<nat, Entry>, elts: map<nat, Entry>)
    requires Part(part, elts, {})
    ensures part == map[]
  {
  }

  /** Everything forbidden; none of it changes the store. */
  method CheckForbidden(r: ConfigStore, namespace: string, n: nat, elts: map<nat, Entry>, first: Entry,
                        revision: string, ghost base: map<ConfigKey, Entry>)
    returns (errors: int)
    requires Ready(r) && Elements(namespace, n, elts) && Filled(namespace, base, elts, r.abs.entries) && NoFakes(base)
    requires first == Elt(elts, 0) && first.meta.resourceVersion == ""
    modifies r`abs, r`log, r.client.server
    ensures Ready(r) && errors == 0 && r.abs == old(r.abs)
    ensures r.log == ForbiddenOps(old(r.log), first, revision, namespace)
  {
    ghost var before := r.abs.entries;
    var e1 := CheckRefusedWrites(r, namespace, n, elts, first, revision, base);
    assert r.abs.entries == before;
    var e2 := CheckMissing(r, namespace, n, elts, base);
    errors := e1 + e2;
  }

  /** What comes between creating and updating leaves the store as it is. */
  method CheckUnchanged(r: ConfigStore, namespace: string, n: nat, elts: map<nat, Entry>, first: Entry,
                        revision: string, ghost base: map<ConfigKey, Entry>)
    returns (errors: int)
    requires Ready(r) && Elements(namespace, n, elts) && Filled(namespace, base, elts, r.abs.entries) && NoFakes(base)
    requires first == Elt(elts, 0) && first.meta.resourceVersion == ""
    modifies r`abs, r`log, r.client.server
    ensures Ready(r) && errors == 0 && r.abs == old(r.abs)
    ensures r.log == CountOps(ForbiddenOps(old(r.log), first, revision, namespace), namespace)
  {
    ghost var before := r.abs.entries;
    var e1 := CheckForbidden(r, namespace, n, elts, first, revision, base);
    assert r.abs.entries == before;
    var e2 := CheckCount(r, namespace, n, elts, base);
    errors := e1 + e2;
  }

  /** Create all elements and read them back. */
  method CreateAndCheck(r: ConfigStore, namespace: string, n: nat, elts: map<nat, Entry>)
    returns (errors: int, revs: map<nat, string>, ghost posts: seq<nat>, ghost gets: seq<nat>)
    requires Ready(r) && NoFakes(r.abs.entries) && Elements(namespace, n, elts) && Made(namespace, elts)
    modifies r`abs, r`log, r.client.server
    ensures Ready(r) && errors == 0
    ensures Filled(namespace, old(r.abs.entries), elts, r.abs.entries)
    ensures CurrentFrom(namespace, 0, n, revs, r.abs.entries)
    ensures Orders(posts, Below(n)) && Orders(gets, Below(n))
    ensures r.log == Gets(Posts(old(r.log), namespace, posts), namespace, gets)
  {
    ghost var base := r.abs.entries;
    var e1, e2;
    e1, posts := PostAll(r, namespace, n, elts);
    e2, revs, gets := CheckStored(r, namespace, elts, base, n);
    errors := e1 + e2;
    Numbers(namespace, n, elts);
  }

  /** Nothing is listed once all elements are deleted. */
  method CheckGone(r: ConfigStore, namespace: string, ghost base: map<ConfigKey, Entry>) returns (errors: int)
    requires Ready(r) && Filled(namespace, base, map[], r.abs.entries) && NoFakes(base)
    modifies r`log
    ensures Ready(r) && errors == 0
    ensures r.log == CountOps(old(r.log), namespace)
  {
    errors := CheckCount(r, namespace, 0, map[], base);
  }

  /** Read the updated elements back, delete them and count. */
  method DeleteAndCheck(r: ConfigStore, namespace: string, n: nat, elts: map<nat, Entry>,
                        ghost base: map<ConfigKey, Entry>)
    returns (errors: int, ghost gets: seq<nat>, ghost deletes: seq<nat>)
    requires Ready(r) && NoFakes(base) && Elements(namespace, n, elts)
    requires Filled(namespace, base, elts, r.abs.entries)
    modifies r`abs, r`log, r.client.server
    ensures Ready(r) && errors == 0 && Filled(namespace, base, map[], r.abs.entries)
    ensures Orders(gets, Below(n)) && Orders(deletes, Below(n))
    ensures r.log == CountOps(Deletes(Gets(old(r.log), namespace, gets), namespace, deletes), namespace)
  {
    var e1, _, again := CheckStored(r, namespace, elts, base, n);
    gets := again;
    var e2;
    e2, deletes := DeleteAll(r, namespace, n, elts, base);
    var e3 := CheckGone(r, namespace, base);
    errors := e1 + e2 + e3;
    Numbers(namespace, n, elts);
  }

  lemma Numbers(namespace: string, n: nat, elts: map<nat, Entry>)
    requires Elements(namespace, n, elts)
    ensures elts.Keys == Below(n)
  {
  }

  /**
   CheckMapInvariant: over a store without entries of the script's types the whole script is carried
   out and finds no error, for any number of elements and any namespace, and it leaves the store's
   entries as they were.
   */
  method CheckMapInvariant(r: ConfigStore, namespace: string, n: nat) returns (errors: int, ghost w: Walk)
    requires Ready(r) && NoFakes(r.abs.entries)
    modifies r`abs, r`log, r.client.server
    ensures Ready(r) && errors == 0 && r.abs.entries == old(r.abs.entries)
    ensures WalksAll(n, w) && r.log == Script(old(r.log), namespace, n, w)
  {
    var _, contains := GetByType(r.client.descriptor, FAKE_CONFIG.typ);
    errors := if contains then 0 else 1;
    var elts := MakeElements(namespace, n);
    var e;
    e, w := RunScript(r, namespace, n, elts);
    errors := errors + e;
  }

  method RunScript(r: ConfigStore, namespace: string, n: nat, elts: map<nat, Entry>)
    returns (errors: int, ghost w: Walk)
    requires Ready(r) && NoFakes(r.abs.entries) && Elements(namespace, n, elts) && Made(namespace, elts)
    requires Elt(elts, 0) == First(namespace, n)
    modifies r`abs, r`log, r.client.server
    ensures Ready(r) && errors == 0 && r.abs.entries == old(r.abs.entries)
    ensures WalksAll(n, w) && r.log == Script(old(r.log), namespace, n, w)
  {
    ghost var base := r.abs.entries;
    var e1, revs, posts, gets := CreateAndCheck(r, namespace, n, elts);
    var e2, again, deletes := CheckAndDelete(r, namespace, n, elts, revs, base);
    errors := e1 + e2;
    w := Walk(posts, gets, revs, again, deletes);
    FilledWithNothing(namespace, base, r.abs.entries);
  }

  /** What follows the creation of the elements. */
  method CheckAndDelete(r: ConfigStore, namespace: string, n: nat, elts: map<nat, Entry>, revs: map<nat, string>,
                        ghost base: map<ConfigKey, Entry>)
    returns (errors: int, ghost again: seq<nat>, ghost deletes: seq<nat>)
    requires Ready(r) && Elements(namespace, n, elts) && Filled(namespace, base, elts, r.abs.entries) && NoFakes(base)
    requires Elt(elts, 0) == First(namespace, n) && CurrentFrom(namespace, 0, n, revs, r.abs.entries)
    modifies r`abs, r`log, r.client.server
    ensures Ready(r) && errors == 0 && Filled(namespace, base, map[], r.abs.entries)
    ensures Orders(again, Below(n)) && Orders(deletes, Below(n))
    ensures r.log == Rest(old(r.log), namespace, n, revs, again, deletes)
  {
    ghost var before := r.abs.entries;
    var e1 := CheckUnchanged(r, namespace, n, elts, First(namespace, n), Rev(revs, 0), base);
    assert r.abs.entries == before;
    var e2, updated := UpdateAll(r, namespace, n, elts, revs, base);
    var e3;
    e3, again, deletes := DeleteAndCheck(r, namespace, n, updated, base);
    errors := e1 + e2 + e3;
  }

  lemma FilledWithNothing(namespace: string, base: map<ConfigKey, Entry>, entries: map<ConfigKey, Entry>)
    requires Filled(namespace, base, map[], entries)
    ensures entries == base
  {
    forall k | k in entries ensures k in base {
      assert !Occupied(namespace, map[], k);
    }
  }
}
