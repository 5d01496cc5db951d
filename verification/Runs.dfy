/** Runs of any number of clients against one server, interleaved request by request. */
module Runs {
  import opened Wrappers
  import opened Config
  import opened Server
  import Operations
  import Text

  datatype Op =
    | Get(typ: string, name: string, namespace: string)
    | List(typ: string, namespace: string)
    | Create(entry: Entry)
    | Update(entry: Entry)
    | Delete(typ: string, name: string, namespace: string)

  datatype Reply =
    | Got(found: Option<Entry>)
    | Listed(entries: seq<Entry>, errors: seq<Error>)
    | Wrote(result: Result<string, Error>)
    | Deleted(error: Option<Error>)

  /** A client, told by its descriptor, performs an operation and is given a reply. */
  datatype Event = Event(client: Descriptor, op: Op, reply: Reply)

  /** The entry an operation writes is a value of a linked message type. */
  predicate OpTyped(reg: Registry, op: Op) {
    op.Create? || op.Update? ==> WellTyped(reg, op.entry.spec)
  }

  function After(reg: Registry, d: Descriptor, s: State, op: Op): State
    requires OpTyped(reg, op)
  {
    match op
    case Create(entry) => Operations.Create(reg, d, s, entry).0
    case Update(entry) => Operations.Update(reg, d, s, entry).0
    case Delete(typ, name, namespace) => Operations.Delete(d, s, typ, name, namespace).0
    case _ => s
  }

  /** The replies an operation may get; only a listing leaves the server a choice. */
  ghost predicate Answers(reg: Registry, d: Descriptor, s: State, op: Op, reply: Reply)
    requires OpTyped(reg, op)
  {
    match op
    case Get(typ, name, namespace) => reply == Got(Operations.Get(reg, d, s, typ, name, namespace))
    case List(typ, namespace) =>
      reply.Listed? && Operations.List(reg, d, s, typ, namespace, reply.entries, reply.errors)
    case Create(entry) => reply == Wrote(Operations.Create(reg, d, s, entry).1)
    case Update(entry) => reply == Wrote(Operations.Update(reg, d, s, entry).1)
    case Delete(typ, name, namespace) => reply == Deleted(Operations.Delete(d, s, typ, name, namespace).1)
  }

  ghost predicate Step(reg: Registry, s: State, e: Event, s': State) {
    OpTyped(reg, e.op) && s' == After(reg, e.client, s, e.op) && Answers(reg, e.client, s, e.op, e.reply)
  }

  ghost predicate StepAt(reg: Registry, states: seq<State>, events: seq<Event>, i: nat)
    requires i < |events| < |states|
  {
    Step(reg, states[i], events[i], states[i + 1])
  }

  /** states[i] is the server before events[i]. */
  ghost predicate IsRun(reg: Registry, states: seq<State>, events: seq<Event>) {
    && |states| == |events| + 1
    && forall i: nat {:trigger StepAt(reg, states, events, i)} | i < |events| :: StepAt(reg, states, events, i)
  }

  /** Every stored object carries a revision the server has issued. */
  ghost predicate RevisionsIssued(s: State) {
    forall p | p in s.objects :: WasIssued(s.objects[p].meta.resourceVersion, s.issued)
  }

  ghost predicate WasIssued(revision: string, issued: nat) {
    exists i: nat | i < issued :: revision == Text.Decimal(i)
  }
}
