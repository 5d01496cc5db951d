/**
 Optimistic concurrency: an update that succeeds with the revision its client read overwrites
 exactly the object the client read.
 */
module Concurrency {
  import opened Wrappers
  import opened Text
  import opened Config
  import opened Server
  import opened Runs
  import Operations

  /** The path a write goes to, when its type is known. */
  function Target(d: Descriptor, op: Op): Option<Path> {
    match op
    case Create(entry) => Operations.PathIn(d, entry.meta.typ, entry.meta.namespace, entry.meta.name)
    case Update(entry) => Operations.PathIn(d, entry.meta.typ, entry.meta.namespace, entry.meta.name)
    case Delete(typ, name, namespace) => Operations.PathIn(d, typ, namespace, name)
    case _ => None
  }

  /** The event wrote to the path and was told that it succeeded. */
  predicate TookEffect(e: Event, p: Path) {
    && Target(e.client, e.op) == Some(p)
    && ((e.reply.Wrote? && e.reply.result.Ok?) || (e.reply.Deleted? && e.reply.error.None?))
  }

  function At(s: State, p: Path): Option<KubeObject> {
    if p in s.objects then Some(s.objects[p]) else None
  }

  /** The revision stored under a path is older than a given count of issued revisions. */
  ghost predicate OlderThan(s: State, p: Path, issued: nat) {
    p in s.objects && WasIssued(s.objects[p].meta.resourceVersion, issued)
  }

  /** One step either leaves a path alone or puts a new revision, or nothing, under it. */
  lemma StepAtPath(reg: Registry, s: State, e: Event, s': State, p: Path)
    requires Step(reg, s, e, s')
    ensures s.issued <= s'.issued
    ensures !TookEffect(e, p) ==> At(s', p) == At(s, p)
    ensures TookEffect(e, p) ==>
              p !in s'.objects
              || (s'.objects[p].meta.resourceVersion == Decimal(s.issued) && s'.issued == s.issued + 1)
  {
  }

  lemma StepKeepsIssued(reg: Registry, s: State, e: Event, s': State)
    requires Step(reg, s, e, s') && RevisionsIssued(s)
    ensures RevisionsIssued(s')
  {
    forall q | q in s'.objects ensures WasIssued(s'.objects[q].meta.resourceVersion, s'.issued) {
      StepAtPath(reg, s, e, s', q);
      if !TookEffect(e, q) {
        assert At(s, q).Some? && WasIssued(s.objects[q].meta.resourceVersion, s.issued);
      }
    }
  }

  /** A revision issued after the first n is none of the first n. */
  lemma NotOlder(i: nat, n: nat)
    requires n <= i
    ensures !WasIssued(Decimal(i), n)
  {
    if j: nat :| j < n && Decimal(i) == Decimal(j) {
      DecimalInjective(i, j);
    }
  }

  /** A write that takes effect removes an old revision; nothing brings one back. */
  lemma StepOlder(reg: Registry, s: State, e: Event, s': State, p: Path, n: nat)
    requires Step(reg, s, e, s') && n <= s.issued
    ensures n <= s'.issued
    ensures !OlderThan(s, p, n) ==> !OlderThan(s', p, n)
    ensures TookEffect(e, p) ==> !OlderThan(s', p, n)
    ensures !TookEffect(e, p) ==> At(s', p) == At(s, p)
  {
    StepAtPath(reg, s, e, s', p);
    NotOlder(s.issued, n);
    if !TookEffect(e, p) && p in s'.objects {
      assert At(s, p).Some? && s.objects[p] == s'.objects[p];
    }
  }

  /** A path that has lost its old revision never holds an old revision again. */
  lemma {:induction false} NeverOlderAgain(
    reg: Registry, states: seq<State>, events: seq<Event>, p: Path, n: nat, i: nat, j: nat)
    requires IsRun(reg, states, events) && i <= j < |states|
    requires n <= states[i].issued && !OlderThan(states[i], p, n)
    ensures n <= states[j].issued && !OlderThan(states[j], p, n)
    decreases j
  {
    if i < j {
      NeverOlderAgain(reg, states, events, p, n, i, j - 1);
      assert StepAt(reg, states, events, j - 1);
      StepOlder(reg, states[j - 1], events[j - 1], states[j], p, n);
    }
  }

  lemma StepIssues(reg: Registry, s: State, e: Event, s': State)
    requires Step(reg, s, e, s')
    ensures s.issued <= s'.issued
  {
    var p := Path("", "", "");
    StepAtPath(reg, s, e, s', p);
  }

  lemma {:induction false} IssuedGrows(reg: Registry, states: seq<State>, events: seq<Event>, i: nat, j: nat)
    requires IsRun(reg, states, events) && i <= j < |states|
    ensures states[i].issued <= states[j].issued
  {
    if i < j {
      IssuedGrows(reg, states, events, i, j - 1);
      var before, after := states[j - 1], states[j];
      assert StepAt(reg, states, events, j - 1);
      StepIssues(reg, before, events[j - 1], after);
    }
  }

  /** While a path still holds an old revision, no write to it has taken effect. */
  lemma {:induction false} StillOlderMeansUntouched(
    reg: Registry, states: seq<State>, events: seq<Event>, p: Path, n: nat, i: nat, j: nat)
    requires IsRun(reg, states, events) && i <= j < |states|
    requires n <= states[i].issued && OlderThan(states[j], p, n)
    ensures At(states[j], p) == At(states[i], p)
    ensures i < j ==> !TookEffect(events[i], p)
    decreases j - i
  {
    if i < j {
      assert StepAt(reg, states, events, i);
      StepOlder(reg, states[i], events[i], states[i + 1], p, n);
      if !OlderThan(states[i + 1], p, n) {
        NeverOlderAgain(reg, states, events, p, n, i + 1, j);
      }
      StillOlderMeansUntouched(reg, states, events, p, n, i + 1, j);
    }
  }

  /**
   No lost update. In any interleaving, when some client reads an entry and some later update
   carrying the revision of that entry succeeds on the same path, then no write to the path took
   effect in between, not even a deletion followed by a creation: the update replaces exactly the
   object that was read.
   */
  lemma NoLostUpdate(reg: Registry, states: seq<State>, events: seq<Event>, i: nat, j: nat, p: Path)
    requires IsRun(reg, states, events) && RevisionsIssued(states[0])
    requires i < j < |events|
    requires events[i].op.Get? && events[i].reply.Got? && events[i].reply.found.Some?
    requires events[j].op.Update? && events[j].reply.Wrote? && events[j].reply.result.Ok?
    requires Operations.PathIn(events[i].client, events[i].op.typ, events[i].op.namespace, events[i].op.name) == Some(p)
    requires Target(events[j].client, events[j].op) == Some(p)
    requires events[j].op.entry.meta.resourceVersion == events[i].reply.found.value.meta.resourceVersion
    ensures p in states[i].objects && At(states[j], p) == At(states[i], p)
    ensures forall k | i <= k < j :: !TookEffect(events[k], p) && At(states[k], p) == At(states[i], p)
  {
    AlwaysIssued(reg, states, events, i);
    assert StepAt(reg, states, events, i) && StepAt(reg, states, events, j);
    assert states[j].objects[p].meta.resourceVersion == states[i].objects[p].meta.resourceVersion;
    var n := states[i].issued;
    assert OlderThan(states[j], p, n);
    forall k | i <= k < j
      ensures !TookEffect(events[k], p) && At(states[k], p) == At(states[j], p)
    {
      IssuedGrows(reg, states, events, i, k);
      StillOlderMeansUntouched(reg, states, events, p, n, k, j);
    }
  }

  lemma EventUntouched(reg: Registry, states: seq<State>, events: seq<Event>, p: Path, k: nat)
    requires IsRun(reg, states, events) && k < |events| && !TookEffect(events[k], p)
    ensures At(states[k + 1], p) == At(states[k], p)
  {
    assert StepAt(reg, states, events, k);
    StepAtPath(reg, states[k], events[k], states[k + 1], p);
  }

  lemma {:induction false} StaysEqual(states: seq<State>, p: Path, i: nat, j: nat)
    requires i <= j < |states|
    requires forall k: nat {:trigger states[k]} | i < k <= j :: At(states[k], p) == At(states[k - 1], p)
    ensures At(states[j], p) == At(states[i], p)
    decreases j
  {
    if i < j {
      StaysEqual(states, p, i, j - 1);
    }
  }

  lemma UntouchedStays(reg: Registry, states: seq<State>, events: seq<Event>, p: Path, i: nat, j: nat)
    requires IsRun(reg, states, events) && i <= j < |states|
    requires forall k | i <= k < j :: !TookEffect(events[k], p)
    ensures At(states[j], p) == At(states[i], p)
  {
    forall k: nat | i < k <= j ensures At(states[k], p) == At(states[k - 1], p) {
      EventUntouched(reg, states, events, p, k - 1);
    }
    StaysEqual(states, p, i, j);
  }

  /**
   Optimistic concurrency is exact: an update the client lets through, carrying the revision of an
   entry read earlier, succeeds if and only if no write to its path took effect since the read.
   */
  lemma UpdateSucceedsIffUntouched(reg: Registry, states: seq<State>, events: seq<Event>, i: nat, j: nat, p: Path)
    requires IsRun(reg, states, events) && RevisionsIssued(states[0])
    requires i < j < |events|
    requires events[i].op.Get? && events[i].reply.Got? && events[i].reply.found.Some?
    requires Operations.PathIn(events[i].client, events[i].op.typ, events[i].op.namespace, events[i].op.name) == Some(p)
    requires events[j].op.Update? && Target(events[j].client, events[j].op) == Some(p)
    requires OpTyped(reg, events[j].op) && Operations.Admit(reg, events[j].client, events[j].op.entry, true).Ok?
    requires events[j].op.entry.meta.resourceVersion == events[i].reply.found.value.meta.resourceVersion
    ensures events[j].reply.Wrote?
    ensures events[j].reply.result.Ok? <==> forall k | i <= k < j :: !TookEffect(events[k], p)
  {
    assert StepAt(reg, states, events, i) && StepAt(reg, states, events, j);
    if forall k | i <= k < j :: !TookEffect(events[k], p) {
      UntouchedStays(reg, states, events, p, i, j);
      assert At(states[i], p).Some? && At(states[j], p).Some?;
    } else if events[j].reply.result.Ok? {
      NoLostUpdate(reg, states, events, i, j, p);
    }
  }

  lemma {:induction false} AlwaysIssued(reg: Registry, states: seq<State>, events: seq<Event>, i: nat)
    requires IsRun(reg, states, events) && RevisionsIssued(states[0]) && i < |states|
    ensures RevisionsIssued(states[i])
  {
    if i > 0 {
      AlwaysIssued(reg, states, events, i - 1);
      assert StepAt(reg, states, events, i - 1);
      StepKeepsIssued(reg, states[i - 1], events[i - 1], states[i]);
    }
  }

  /** An update succeeds only on the revision it carries. */
  lemma UpdateNeedsRevision(reg: Registry, s: State, e: Event, s': State, p: Path)
    requires Step(reg, s, e, s') && e.op.Update? && Target(e.client, e.op) == Some(p)
    ensures e.reply.Wrote?
    ensures e.reply.result.Ok? ==>
              && p in s.objects && s.objects[p].meta.resourceVersion == e.op.entry.meta.resourceVersion
              && TookEffect(e, p)
  {
  }

  lemma UpdateAt(reg: Registry, states: seq<State>, events: seq<Event>, i: nat, p: Path)
    requires IsRun(reg, states, events) && i < |events|
    requires events[i].op.Update? && Target(events[i].client, events[i].op) == Some(p)
    ensures events[i].reply.Wrote?
    ensures events[i].reply.result.Ok? ==>
              && p in states[i].objects
              && states[i].objects[p].meta.resourceVersion == events[i].op.entry.meta.resourceVersion
              && !OlderThan(states[i + 1], p, states[i].issued) && states[i].issued <= states[i + 1].issued
  {
    assert StepAt(reg, states, events, i);
    UpdateNeedsRevision(reg, states[i], events[i], states[i + 1], p);
    StepOlder(reg, states[i], events[i], states[i + 1], p, states[i].issued);
  }

  /** Of two updates carrying the same revision to the same path, only the first can succeed. */
  lemma OneWinner(reg: Registry, states: seq<State>, events: seq<Event>, i: nat, j: nat, p: Path)
    requires IsRun(reg, states, events) && RevisionsIssued(states[0])
    requires i < j < |events|
    requires events[i].op.Update? && Target(events[i].client, events[i].op) == Some(p)
    requires events[j].op.Update? && Target(events[j].client, events[j].op) == Some(p)
    requires events[i].op.entry.meta.resourceVersion == events[j].op.entry.meta.resourceVersion
    requires events[i].reply.Wrote? && events[i].reply.result.Ok?
    ensures events[j].reply.Wrote? && events[j].reply.result.Err?
  {
    AlwaysIssued(reg, states, events, i);
    UpdateAt(reg, states, events, i, p);
    UpdateAt(reg, states, events, j, p);
    assert OlderThan(states[i], p, states[i].issued);
    NeverOlderAgain(reg, states, events, p, states[i].issued, i + 1, j);
  }
}
