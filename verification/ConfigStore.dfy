/** The client seen through the store contract alone. */
module ConfigStore {
  import opened Wrappers
  import opened Config
  import opened Server
  import opened Templates
  import opened Client
  import opened Runs
  import opened StoreContract
  import opened Refinement
  import Text

  /** The operations performed so far, the last one first. */
  datatype Log = Nothing | Did(before: Log, op: Op)

  class ConfigStore {
    const client: Client
    /** The abstract store the client stands for. */
    ghost var abs: Store
    /** What has been asked of the store. */
    ghost var log: Log

    ghost predicate Valid()
      reads this, client.server, TemplateObjects(client.knownTypes)
    {
      && client.Valid()
      && WellFormedRegistry(client.registry) && Separate(client.registry, client.descriptor)
      && Simulates(client.registry, client.descriptor, client.server.Now(), abs)
      && Coherent(abs)
    }

    constructor (client: Client)
      requires client.Valid() && client.server.Now() == State(map[], 0)
      requires WellFormedRegistry(client.registry) && Separate(client.registry, client.descriptor)
      ensures Valid() && this.client == client && abs == Store(map[], {}) && log == Nothing
    {
      this.client, abs, log := client, Store(map[], {}), Nothing;
      EmptySimulates(client.registry, client.descriptor);
    }

    method Get(typ: string, name: string, namespace: string) returns (found: Option<Entry>)
      requires Valid()
      modifies this`log
      ensures Valid() && log == Did(old(log), Op.Get(typ, name, namespace))
      ensures Allows(client.registry, client.descriptor, abs, Op.Get(typ, name, namespace), Got(found))
    {
      log := Did(log, Op.Get(typ, name, namespace));
      found := client.Get(typ, name, namespace);
      GetRefines(client.registry, client.descriptor, client.server.Now(), abs, typ, name, namespace);
    }

    method List(typ: string, namespace: string) returns (out: seq<Entry>, errors: seq<Error>)
      requires Valid()
      modifies this`log
      ensures Valid() && log == Did(old(log), Op.List(typ, namespace))
      ensures Allows(client.registry, client.descriptor, abs, Op.List(typ, namespace), Listed(out, errors))
    {
      log := Did(log, Op.List(typ, namespace));
      out, errors := client.List(typ, namespace);
      ListRefines(client.registry, client.descriptor, client.server.Now(), abs, typ, namespace, out, errors);
    }

    method Create(entry: Entry) returns (r: Result<string, Error>)
      requires Valid() && WellTyped(client.registry, entry.spec) && Matching(client.descriptor, Op.Create(entry))
      modifies this`abs, this`log, client.server
      ensures Valid() && abs == Next(old(abs), Op.Create(entry), Wrote(r))
      ensures log == Did(old(log), Op.Create(entry))
      ensures Allows(client.registry, client.descriptor, old(abs), Op.Create(entry), Wrote(r))
    {
      CreateRefines(client.registry, client.descriptor, client.server.Now(), abs, entry);
      r := client.Create(entry);
      NextCoherent(client.registry, client.descriptor, abs, Op.Create(entry), Wrote(r));
      abs, log := Next(abs, Op.Create(entry), Wrote(r)), Did(log, Op.Create(entry));
    }

    method Update(entry: Entry) returns (r: Result<string, Error>)
      requires Valid() && WellTyped(client.registry, entry.spec) && Matching(client.descriptor, Op.Update(entry))
      modifies this`abs, this`log, client.server
      ensures Valid() && abs == Next(old(abs), Op.Update(entry), Wrote(r))
      ensures log == Did(old(log), Op.Update(entry))
      ensures Allows(client.registry, client.descriptor, old(abs), Op.Update(entry), Wrote(r))
    {
      UpdateRefines(client.registry, client.descriptor, client.server.Now(), abs, entry);
      r := client.Update(entry);
      NextCoherent(client.registry, client.descriptor, abs, Op.Update(entry), Wrote(r));
      abs, log := Next(abs, Op.Update(entry), Wrote(r)), Did(log, Op.Update(entry));
    }

    method Delete(typ: string, name: string, namespace: string) returns (r: Option<Error>)
      requires Valid()
      modifies this`abs, this`log, client.server
      ensures Valid() && abs == Next(old(abs), Op.Delete(typ, name, namespace), Deleted(r))
      ensures log == Did(old(log), Op.Delete(typ, name, namespace))
      ensures Allows(client.registry, client.descriptor, old(abs), Op.Delete(typ, name, namespace), Deleted(r))
    {
      DeleteRefines(client.registry, client.descriptor, client.server.Now(), abs, typ, name, namespace);
      r := client.Delete(typ, name, namespace);
      NextCoherent(client.registry, client.descriptor, abs, Op.Delete(typ, name, namespace), Deleted(r));
      abs, log := Next(abs, Op.Delete(typ, name, namespace), Deleted(r)), Did(log, Op.Delete(typ, name, namespace));
    }

    /** Revisions are decimal numbers: a string with another character is none. */
    lemma RevisionsAreDecimal(revision: string, c: char)
      requires Valid() && c in revision && !('0' <= c <= '9')
      ensures revision !in abs.revisions
    {
      forall i: nat ensures Text.Decimal(i) != revision {
      }
    }
  }
}
