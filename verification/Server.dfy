/**
 The API server as an explicit state: the objects it holds by path, and how many revisions it
 has issued. Its behaviour is what the store contract asks: creation fails on an existing key,
 an update needs the stored revision, and every accepted write gets a revision never used before.
 Each request is atomic.
 */
module Server {
  import opened Wrappers
  import opened Codec
  import opened Text
  import opened Config

  datatype Path = Path(resource: string, namespace: string, name: string)

  datatype ObjectMeta = ObjectMeta(
    name: string,
    namespace: string,
    resourceVersion: string,
    labels: map<string, string>,
    annotations: map<string, string>)

  /** An object as it travels and as it is stored. */
  datatype KubeObject = KubeObject(meta: ObjectMeta, spec: map<string, Json>)

  datatype State = State(objects: map<Path, KubeObject>, issued: nat)

  function Stamp(body: KubeObject, revision: string): KubeObject {
    body.(meta := body.meta.(resourceVersion := revision))
  }

  /** Stores a body under a path with the next revision. */
  function Accept(s: State, p: Path, body: KubeObject): State {
    State(s.objects[p := Stamp(body, Decimal(s.issued))], s.issued + 1)
  }

  function Post(s: State, p: Path, body: KubeObject): (State, Result<KubeObject, Error>) {
    if p in s.objects then (s, Err(AlreadyExists))
    else (Accept(s, p, body), Ok(Stamp(body, Decimal(s.issued))))
  }

  function Put(s: State, p: Path, body: KubeObject): (State, Result<KubeObject, Error>) {
    if p !in s.objects then (s, Err(NotFound))
    else if s.objects[p].meta.resourceVersion != body.meta.resourceVersion then (s, Err(Conflict))
    else (Accept(s, p, body), Ok(Stamp(body, Decimal(s.issued))))
  }

  function Remove(s: State, p: Path): (State, Option<Error>) {
    if p !in s.objects then (s, Some(NotFound)) else (s.(objects := s.objects - {p}), None)
  }

  function Fetch(s: State, p: Path): Result<KubeObject, Error> {
    if p in s.objects then Ok(s.objects[p]) else Err(NotFound)
  }

  /** The paths a listing covers; the empty namespace means all of them. */
  predicate InScope(p: Path, resource: string, namespace: string) {
    p.resource == resource && (namespace == "" || p.namespace == namespace)
  }

  /** A listing names every object in scope once, in an order the server chooses. */
  ghost predicate Enumerates(s: State, resource: string, namespace: string, paths: seq<Path>) {
    && (forall i | 0 <= i < |paths| :: paths[i] in s.objects && InScope(paths[i], resource, namespace))
    && (forall p | p in s.objects && InScope(p, resource, namespace) :: p in paths)
    && (forall i, j | 0 <= i < j < |paths| :: paths[i] != paths[j])
  }

  function ObjectsAt(s: State, paths: seq<Path>): (items: seq<KubeObject>)
    requires forall i | 0 <= i < |paths| :: paths[i] in s.objects
    ensures |items| == |paths| && forall i | 0 <= i < |paths| :: items[i] == s.objects[paths[i]]
  {
    if paths == [] then [] else [s.objects[paths[0]]] + ObjectsAt(s, paths[1..])
  }

  /** The running server, shared by all clients. */
  class ApiServer {
    var objects: map<Path, KubeObject>
    var issued: nat

    constructor ()
      ensures Now() == State(map[], 0)
    {
      objects, issued := map[], 0;
    }

    function Now(): State
      reads this
    {
      State(objects, issued)
    }

    method DoPost(p: Path, body: KubeObject) returns (r: Result<KubeObject, Error>)
      modifies this
      ensures (Now(), r) == Post(old(Now()), p, body)
    {
      if p in objects {
        return Err(AlreadyExists);
      }
      r := DoAccept(p, body);
    }

    method DoPut(p: Path, body: KubeObject) returns (r: Result<KubeObject, Error>)
      modifies this
      ensures (Now(), r) == Put(old(Now()), p, body)
    {
      if p !in objects {
        return Err(NotFound);
      }
      if objects[p].meta.resourceVersion != body.meta.resourceVersion {
        return Err(Conflict);
      }
      r := DoAccept(p, body);
    }

    method DoAccept(p: Path, body: KubeObject) returns (r: Result<KubeObject, Error>)
      modifies this
      ensures Now() == Accept(old(Now()), p, body) && r == Ok(Now().objects[p])
    {
      var stored := Stamp(body, Decimal(issued));
      objects := objects[p := stored];
      issued := issued + 1;
      return Ok(stored);
    }

    method DoRemove(p: Path) returns (r: Option<Error>)
      modifies this
      ensures (Now(), r) == Remove(old(Now()), p)
    {
      if p !in objects {
        return Some(NotFound);
      }
      objects := objects - {p};
      return None;
    }

    /** Walks the objects in any order and keeps those in scope. */
    method DoList(resource: string, namespace: string) returns (items: seq<KubeObject>, ghost paths: seq<Path>)
      ensures Enumerates(Now(), resource, namespace, paths)
      ensures items == ObjectsAt(Now(), paths)
    {
      items, paths := [], [];
      var left := objects.Keys;
      while left != {}
        invariant left <= objects.Keys
        invariant forall i | 0 <= i < |paths| ::
                    paths[i] in objects && paths[i] !in left && InScope(paths[i], resource, namespace)
        invariant forall p | p in objects && p !in left && InScope(p, resource, namespace) :: p in paths
        invariant forall i, j | 0 <= i < j < |paths| :: paths[i] != paths[j]
        invariant |items| == |paths| && forall i | 0 <= i < |paths| :: items[i] == objects[paths[i]]
        decreases left
      {
        var p :| p in left;
        left := left - {p};
        if p.resource == resource && (namespace == "" || p.namespace == namespace) {
          items, paths := items + [objects[p]], paths + [p];
        }
      }
    }
  }
}
