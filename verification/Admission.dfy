/**
 What each operation of the client answers and does, case by case, in every state of the server:
 which refusals the client gives by itself, which the server gives, and when an operation succeeds.
 */
module Admission {
  import opened Wrappers
  import opened Codec
  import opened Names
  import opened Labels
  import opened Config
  import opened Server
  import opened Conversion
  import opened Runs
  import opened Invariants
  import Operations
  import Text

  /** The schema and the message pass: labels as names, a linked message type, the type's own check. */
  predicate Passes(reg: Registry, schema: Schema, spec: Spec) {
    WellNamed(reg, schema) && OwnCheck(schema, spec) == Pass
  }

  /** Where an entry of a schema is stored. */
  function PlaceOf(schema: Schema, meta: Meta): Path {
    Path(ResourceName(schema.plural), meta.namespace, meta.name)
  }

  /** What is stored of an entry under a revision: its metadata, and its message as JSON. */
  function ObjectOf(reg: Registry, entry: Entry, revision: string): KubeObject
    requires WellTyped(reg, entry.spec) && entry.spec.Some?
  {
    var m := entry.meta;
    KubeObject(ObjectMeta(m.name, m.namespace, revision, m.labels, m.annotations),
               Encode(reg[entry.spec.value.typ], entry.spec.value.body))
  }

  /** The answers the client gives before any request, in the order it looks for them. */
  ghost predicate Refusals(reg: Registry, d: Descriptor, entry: Entry, needsRevision: bool, r: Result<string, Error>) {
    var found, spec := SchemaOf(d, entry.meta.typ), entry.spec;
    var unrevised := needsRevision && entry.meta.resourceVersion == "";
    && (r == Err(UnrecognizedType) <==> found.None?)
    && (r == Err(Invalid) <==>
          found.Some? && (!WellNamed(reg, found.value) || OwnCheck(found.value, spec) == Reject))
    && (r == Err(Panicked) <==>
          found.Some? && WellNamed(reg, found.value) && OwnCheck(found.value, spec) == Panic)
    && (r == Err(RevisionRequired) <==> found.Some? && Passes(reg, found.value, spec) && unrevised)
    && (r == Err(BadSpec(NilMessage)) <==> found.Some? && Passes(reg, found.value, spec) && !unrevised && spec.None?)
  }

  /** The client sends a request: a known type, everything passes, and there is a message. */
  predicate Sends(reg: Registry, d: Descriptor, entry: Entry) {
    && SchemaOf(d, entry.meta.typ).Some?
    && Passes(reg, SchemaOf(d, entry.meta.typ).value, entry.spec) && entry.spec.Some?
  }

  /** An entry stored in a state under the next revision. */
  function StoredIn(reg: Registry, d: Descriptor, s: State, entry: Entry): State
    requires WellTyped(reg, entry.spec) && Sends(reg, d, entry)
  {
    var p := PlaceOf(SchemaOf(d, entry.meta.typ).value, entry.meta);
    State(s.objects[p := ObjectOf(reg, entry, Text.Decimal(s.issued))], s.issued + 1)
  }

  lemma CreateOutcome(reg: Registry, d: Descriptor, s: State, entry: Entry)
    requires WellTyped(reg, entry.spec)
    ensures var (s', r) := Operations.Create(reg, d, s, entry);
            && Refusals(reg, d, entry, false, r)
            && (r == Err(AlreadyExists) <==>
                  Sends(reg, d, entry) && PlaceOf(SchemaOf(d, entry.meta.typ).value, entry.meta) in s.objects)
            && (r.Ok? <==>
                  Sends(reg, d, entry) && PlaceOf(SchemaOf(d, entry.meta.typ).value, entry.meta) !in s.objects)
            && (if r.Ok? then r.value == Text.Decimal(s.issued) && s' == StoredIn(reg, d, s, entry) else s' == s)
  {
    if SchemaOf(d, entry.meta.typ).Some? {
      ValidateOutcome(reg, SchemaOf(d, entry.meta.typ).value, entry.spec);
    }
  }

  /** The object an update finds at its place. */
  function FoundBy(d: Descriptor, s: State, entry: Entry): Option<KubeObject> {
    match SchemaOf(d, entry.meta.typ)
    case None => None
    case Some(schema) =>
      var p := PlaceOf(schema, entry.meta);
      if p in s.objects then Some(s.objects[p]) else None
  }

  lemma UpdateOutcome(reg: Registry, d: Descriptor, s: State, entry: Entry)
    requires WellTyped(reg, entry.spec)
    ensures var (s', r) := Operations.Update(reg, d, s, entry);
            var version, found := entry.meta.resourceVersion, FoundBy(d, s, entry);
            && Refusals(reg, d, entry, true, r)
            && (r == Err(NotFound) <==> Sends(reg, d, entry) && version != "" && found.None?)
            && (r == Err(Conflict) <==>
                  && Sends(reg, d, entry) && version != ""
                  && found.Some? && found.value.meta.resourceVersion != version)
            && (r.Ok? <==>
                  && Sends(reg, d, entry) && version != ""
                  && found.Some? && found.value.meta.resourceVersion == version)
            && (if r.Ok? then r.value == Text.Decimal(s.issued) && s' == StoredIn(reg, d, s, entry) else s' == s)
  {
    if SchemaOf(d, entry.meta.typ).Some? {
      ValidateOutcome(reg, SchemaOf(d, entry.meta.typ).value, entry.spec);
    }
  }

  /** An update without a revision never succeeds and changes nothing, even where the stored one is empty. */
  lemma UnrevisedUpdateRefused(reg: Registry, d: Descriptor, s: State, entry: Entry)
    requires WellTyped(reg, entry.spec) && entry.meta.resourceVersion == ""
    ensures var (s', r) := Operations.Update(reg, d, s, entry);
            s' == s && r.Err? && r.error !in {NotFound, Conflict, AlreadyExists}
  {
    UpdateOutcome(reg, d, s, entry);
  }

  lemma DeleteOutcome(d: Descriptor, s: State, typ: string, name: string, namespace: string)
    ensures var (s', r) := Operations.Delete(d, s, typ, name, namespace);
            match SchemaOf(d, typ)
            case None => r == Some(UnrecognizedType) && s' == s
            case Some(schema) =>
              var p := Path(ResourceName(schema.plural), namespace, name);
              if p in s.objects then r == None && s' == State(s.objects - {p}, s.issued)
              else r == Some(NotFound) && s' == s
  {
  }

  /** Get finds an entry exactly when the object is there and its spec fits, and then shows all of it. */
  lemma GetOutcome(reg: Registry, d: Descriptor, s: State, typ: string, name: string, namespace: string)
    requires WellFormedRegistry(reg)
    ensures var r := Operations.Get(reg, d, s, typ, name, namespace);
            match SchemaOf(d, typ)
            case None => r == None
            case Some(schema) =>
              var p := Path(ResourceName(schema.plural), namespace, name);
              && (r.Some? <==>
                    p in s.objects && schema.messageName in reg && Fits(reg[schema.messageName], s.objects[p].spec))
              && (r.Some? ==>
                    var m, e := s.objects[p].meta, r.value;
                    && e.meta == Meta(typ, m.name, m.namespace, "", m.labels, m.annotations, m.resourceVersion)
                    && e.spec.Some? && e.spec.value.typ == schema.messageName && WellTyped(reg, e.spec)
                    && Encode(reg[schema.messageName], e.spec.value.body)
                       == Canonical(reg[schema.messageName], s.objects[p].spec))
  {
    if SchemaOf(d, typ).Some? {
      var schema := SchemaOf(d, typ).value;
      var p := Path(ResourceName(schema.plural), namespace, name);
      if p in s.objects {
        ObjectReads(reg, schema, s.objects[p]);
      }
    }
  }

  /** A listing reports no error exactly when the type is known and every spec it covers fits. */
  lemma ListSucceedsIffAllFit(reg: Registry, d: Descriptor, s: State, typ: string, namespace: string,
                              entries: seq<Entry>, errors: seq<Error>)
    requires WellFormedRegistry(reg) && Operations.List(reg, d, s, typ, namespace, entries, errors)
    ensures errors == [] <==>
              match SchemaOf(d, typ)
              case None => false
              case Some(schema) =>
                forall p | p in s.objects && InScope(p, ResourceName(schema.plural), namespace) ::
                  schema.messageName in reg && Fits(reg[schema.messageName], s.objects[p].spec)
    ensures SchemaOf(d, typ).None? ==> entries == [] && errors == [UnrecognizedType]
  {
    ListSucceedsIffAllDecode(reg, d, s, typ, namespace, entries, errors);
    if SchemaOf(d, typ).Some? {
      var schema := SchemaOf(d, typ).value;
      forall p | p in s.objects
        ensures Decodes(reg, schema, s.objects[p])
           <==> schema.messageName in reg && Fits(reg[schema.messageName], s.objects[p].spec)
      {
        ObjectReads(reg, schema, s.objects[p]);
      }
    }
  }

  // ---- What admission keeps out of the store ---------------------------------------------------

  /** Every resource path is a DNS label. */
  ghost predicate Labelled(s: State) {
    forall p | p in s.objects :: IsLabel(p.resource)
  }

  lemma AfterKeepsLabelled(reg: Registry, d: Descriptor, s: State, op: Op)
    requires OpTyped(reg, op) && Labelled(s)
    ensures Labelled(After(reg, d, s, op))
  {
    match op
    case Create(entry) =>
      CreateOutcome(reg, d, s, entry);
      LabelStored(reg, d, s, entry);
    case Update(entry) =>
      UpdateOutcome(reg, d, s, entry);
      LabelStored(reg, d, s, entry);
    case Delete(typ, name, namespace) => DeleteOutcome(d, s, typ, name, namespace);
    case _ =>
  }

  lemma LabelStored(reg: Registry, d: Descriptor, s: State, entry: Entry)
    requires WellTyped(reg, entry.spec) && Labelled(s)
    ensures Sends(reg, d, entry) ==> Labelled(StoredIn(reg, d, s, entry))
  {
    if Sends(reg, d, entry) {
      ResourceNameIsLabel(SchemaOf(d, entry.meta.typ).value.plural);
    }
  }

  /** Whatever any clients do from an empty server, everything is stored under a label. */
  lemma {:induction false} AlwaysLabelled(reg: Registry, states: seq<State>, events: seq<Event>, i: nat)
    requires IsRun(reg, states, events) && i < |states| && Labelled(states[0])
    ensures Labelled(states[i])
  {
    if i > 0 {
      AlwaysLabelled(reg, states, events, i - 1);
      assert StepAt(reg, states, events, i - 1);
      AfterKeepsLabelled(reg, events[i - 1].client, states[i - 1], events[i - 1].op);
    }
  }
}
