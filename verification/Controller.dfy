/**
 The catalog: a nested loop over Go maps, in whatever order they are walked, that lists all plans
 again for every service while other clients go on writing.
 */
module Controller {
  import opened Config
  import opened Server
  import opened Runs
  import opened Counting
  import opened Osb
  import opened BrokerStore

  /** A write another client performs between two requests of the catalog. */
  datatype Call = Call(client: Descriptor, op: Op)

  /** The calls of others before the i-th request. */
  type Others = nat -> seq<Call>

  predicate CallsTyped(reg: Registry, calls: seq<Call>) {
    forall i | 0 <= i < |calls| :: OpTyped(reg, calls[i].op)
  }

  ghost predicate OthersTyped(reg: Registry, others: Others) {
    forall i: nat :: CallsTyped(reg, others(i))
  }

  function AfterCalls(reg: Registry, s: State, calls: seq<Call>): State
    requires CallsTyped(reg, calls)
    decreases |calls|
  {
    if calls == [] then s
    else AfterCalls(reg, After(reg, calls[0].client, s, calls[0].op), calls[1..])
  }

  /** The server at the i-th request: 0 lists the classes, i + 1 the plans for the i-th class. */
  ghost function Moment(reg: Registry, start: State, others: Others, i: nat): State
    requires OthersTyped(reg, others)
  {
    AfterCalls(reg, if i == 0 then start else Moment(reg, start, others, i - 1), others(i))
  }

  /** The service plan under a key. */
  function PlanAt(plans: map<string, Body>): string -> ServicePlan {
    k => NewServicePlan(if k in plans then plans[k] else [])
  }

  /** How one class was served: the plans that were read, and the order its own were walked in. */
  datatype Serving = Serving(key: string, plans: map<string, Body>, order: seq<string>)

  /** The service holds the plans that offer it, among those listed at the given moment. */
  ghost predicate ServedBy(reg: Registry, d: Descriptor, moment: State, classes: map<string, Body>,
                           sv: Serving, service: ServiceRecord)
  {
    && sv.key in classes
    && Reads(reg, d, moment, SERVICE_PLAN, sv.plans)
    && Orders(sv.order, Selection(sv.plans, sv.key).Keys)
    && service == ServiceOf(classes[sv.key]).(plans := MapSeq(PlanAt(sv.plans), sv.order))
  }

  function KeysOf(servings: seq<Serving>): (keys: seq<string>)
    ensures |keys| == |servings| && forall i | 0 <= i < |servings| :: keys[i] == servings[i].key
  {
    if servings == [] then [] else [servings[0].key] + KeysOf(servings[1..])
  }

  /** The services built so far, and how each came about. */
  ghost predicate Accounts(reg: Registry, d: Descriptor, start: State, others: Others,
                           classes: map<string, Body>, servings: seq<Serving>, services: seq<ServiceRecord>)
    requires OthersTyped(reg, others)
  {
    && |services| == |servings|
    && forall i | 0 <= i < |servings| ::
         ServedBy(reg, d, Moment(reg, start, others, i + 1), classes, servings[i], services[i])
  }

  /** Lets other clients perform their calls on the server. */
  method Interfere(server: ApiServer, reg: Registry, calls: seq<Call>)
    requires CallsTyped(reg, calls)
    modifies server
    ensures server.Now() == AfterCalls(reg, old(server.Now()), calls)
  {
    for i := 0 to |calls|
      invariant AfterCalls(reg, server.Now(), calls[i..]) == AfterCalls(reg, old(server.Now()), calls)
    {
      assert calls[i..][1..] == calls[i + 1..];
      var next := After(reg, calls[i].client, server.Now(), calls[i].op);
      server.objects, server.issued := next.objects, next.issued;
    }
  }

  lemma PlanAppended(ps: map<string, Body>, order: seq<string>, pk: string)
    requires pk in ps
    ensures MapSeq(PlanAt(ps), order + [pk]) == MapSeq(PlanAt(ps), order) + [NewServicePlan(ps[pk])]
  {
    MapAppend(PlanAt(ps), order, [pk]);
  }

  /** A service with all the plans selected for it is served. */
  lemma Served(reg: Registry, d: Descriptor, moment: State, classes: map<string, Body>, k: string,
               ps: map<string, Body>, order: seq<string>)
    returns (sv: Serving)
    requires k in classes && Selects(reg, d, moment, k, ps) && Orders(order, ps.Keys)
    ensures sv.key == k
    ensures ServedBy(reg, d, moment, classes, sv, ServiceOf(classes[k]).(plans := MapSeq(PlanAt(ps), order)))
  {
    var plans := SelectedFrom(reg, d, moment, k, ps);
    sv := Serving(k, plans, order);
    assert MapSeq(PlanAt(ps), order) == MapSeq(PlanAt(plans), order);
  }

  class Controller {
    const config: BrokerConfigStore

    constructor (config: BrokerConfigStore)
      ensures this.config == config
    {
      this.config := config;
    }

    /** The inner loop: every plan of the map is added, in any order. */
    static method AddPlans(js: Service, ps: map<string, Body>) returns (ghost order: seq<string>)
      requires js.plans == []
      modifies js`plans
      ensures Orders(order, ps.Keys) && js.plans == MapSeq(PlanAt(ps), order)
    {
      order := [];
      var left := ps.Keys;
      while left != {}
        invariant left <= ps.Keys && Orders(order, ps.Keys - left)
        invariant js.plans == MapSeq(PlanAt(ps), order)
        decreases left
      {
        var pk :| pk in left;
        OneFewer(order, ps.Keys, left, pk);
        PlanAppended(ps, order, pk);
        left := left - {pk};
        js.AddPlan(NewServicePlan(ps[pk]));
        order := order + [pk];
      }
    }

    /** The body of the outer loop: one service with the plans that offer it. */
    method ServiceFor(k: string, ghost classes: map<string, Body>, s: Body) returns (js: Service, ghost sv: Serving)
      requires config.store.Valid() && k in classes && classes[k] == s
      ensures fresh(js) && sv.key == k
      ensures ServedBy(config.store.registry, config.store.descriptor, config.store.server.Now(), classes, sv,
                       js.Value())
    {
      ghost var moment := config.store.server.Now();
      js := new Service(s);
      assert config.store.server.Now() == moment;
      var ps := config.ServicePlansByService(k);
      ghost var order := AddPlans(js, ps);
      assert config.store.server.Now() == moment;
      sv := Served(config.store.registry, config.store.descriptor, moment, classes, k, ps, order);
    }

    /** One round of the outer loop, after other clients have performed some calls. */
    method ServeNext(jc: Catalog, ghost classes: map<string, Body>, k: string, s: Body, calls: seq<Call>)
      returns (ghost sv: Serving)
      requires config.store.Valid() && CallsTyped(config.store.registry, calls) && k in classes && classes[k] == s
      modifies config.store.server, jc
      ensures config.store.Valid() && sv.key == k
      ensures config.store.server.Now() == AfterCalls(config.store.registry, old(config.store.server.Now()), calls)
      ensures |jc.services| == |old(jc.services)| + 1 && jc.services[..|old(jc.services)|] == old(jc.services)
      ensures ServedBy(config.store.registry, config.store.descriptor, config.store.server.Now(), classes, sv,
                       jc.services[|old(jc.services)|])
    {
      Interfere(config.store.server, config.store.registry, calls);
      var js;
      js, sv := ServiceFor(k, classes, s);
      jc.AddService(js);
    }

    /** Controller.catalog, with others(i) performed by other clients before its i-th request. */
    method GetCatalog(others: Others)
      returns (jc: Catalog, ghost classes: map<string, Body>, ghost servings: seq<Serving>)
      requires config.store.Valid() && OthersTyped(config.store.registry, others)
      modifies config.store.server
      ensures config.store.Valid() && fresh(jc) && Orders(KeysOf(servings), classes.Keys)
      ensures config.store.server.Now()
           == Moment(config.store.registry, old(config.store.server.Now()), others, |servings|)
      ensures var start := old(config.store.server.Now());
              && Reads(config.store.registry, config.store.descriptor,
                       Moment(config.store.registry, start, others, 0), SERVICE_CLASS, classes)
              && Accounts(config.store.registry, config.store.descriptor, start, others, classes, servings, jc.services)
    {
      ghost var start := config.store.server.Now();
      jc := new Catalog();
      Interfere(config.store.server, config.store.registry, others(0));
      var sc := config.ServiceClasses();
      classes, servings := sc, [];
      var left, requests := sc.Keys, 1;
      while left != {}
        invariant left <= sc.Keys && Orders(KeysOf(servings), sc.Keys - left)
        invariant config.store.Valid() && requests == |servings| + 1
        invariant config.store.server.Now() == Moment(config.store.registry, start, others, |servings|)
        invariant Accounts(config.store.registry, config.store.descriptor, start, others, sc, servings, jc.services)
        decreases left
      {
        var k :| k in left;
        ghost var before := jc.services;
        var sv := ServeNext(jc, sc, k, sc[k], others(requests));
        ExtendAccounts(config.store.registry, config.store.descriptor, start, others, sc, servings, before, sv,
                       jc.services);
        OneMore(servings, sc.Keys, left, k, sv);
        left := left - {k};
        requests := requests + 1;
        servings := servings + [sv];
      }
    }
  }

  lemma ExtendAccounts(reg: Registry, d: Descriptor, start: State, others: Others, classes: map<string, Body>,
                       servings: seq<Serving>, services: seq<ServiceRecord>, sv: Serving, more: seq<ServiceRecord>)
    requires OthersTyped(reg, others) && Accounts(reg, d, start, others, classes, servings, services)
    requires |more| == |services| + 1 && more[..|services|] == services
    requires ServedBy(reg, d, Moment(reg, start, others, |services| + 1), classes, sv, more[|services|])
    ensures Accounts(reg, d, start, others, classes, servings + [sv], more)
  {
    var n, all := |services|, servings + [sv];
    forall i | 0 <= i < |all|
      ensures ServedBy(reg, d, Moment(reg, start, others, i + 1), classes, all[i], more[i])
    {
      if i < n {
        assert ServedBy(reg, d, Moment(reg, start, others, i + 1), classes, servings[i], services[i]);
        assert all[i] == servings[i] && more[i] == more[..n][i] == services[i];
      } else {
        assert i == n && all[n] == sv;
      }
    }
  }

  lemma OneMore(servings: seq<Serving>, keys: set<string>, left: set<string>, k: string, sv: Serving)
    requires k in left && left <= keys && sv.key == k && Orders(KeysOf(servings), keys - left)
    ensures Orders(KeysOf(servings + [sv]), keys - (left - {k}))
  {
    KeysOfAppend(servings, sv);
    OneFewer(KeysOf(servings), keys, left, k);
  }

  lemma {:induction false} KeysOfAppend(servings: seq<Serving>, sv: Serving)
    ensures KeysOf(servings + [sv]) == KeysOf(servings) + [sv.key]
  {
  }
}
