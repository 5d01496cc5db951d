/** What a catalog contains, whatever orders its maps were walked in and whatever others wrote. */
module CatalogLaws {
  import opened Wrappers
  import opened Config
  import opened Server
  import opened Conversion
  import opened Runs
  import opened Counting
  import opened Osb
  import opened BrokerStore
  import opened Controller
  import opened Invariants

  // ---- The join ----------------------------------------------------------------------------

  /** A service with its plans as a multiset, their order forgotten. */
  datatype View = View(head: ServiceRecord, plans: multiset<ServicePlan>)

  function ViewOf(): ServiceRecord -> View {
    (s: ServiceRecord) => View(s.(plans := []), multiset(s.plans))
  }

  /** The plans that offer a service, however they are ordered. */
  ghost function Offered(plans: map<string, Body>, k: string): multiset<ServicePlan> {
    multiset(MapSeq(PlanAt(plans), SomeOrder(Selection(plans, k).Keys)))
  }

  /** The service of a class key with every plan that offers the key. */
  ghost function JoinAt(classes: map<string, Body>, plans: map<string, Body>): string -> View {
    k => View(ServiceOf(if k in classes then classes[k] else []), Offered(plans, k))
  }

  /** The join of classes and plans: one view for each class key. */
  ghost function Join(classes: map<string, Body>, plans: map<string, Body>): multiset<View> {
    multiset(MapSeq(JoinAt(classes, plans), SomeOrder(classes.Keys)))
  }

  /** Every plan read during the catalog was read from the same map. */
  ghost predicate OnePlanMap(servings: seq<Serving>, plans: map<string, Body>) {
    forall i | 0 <= i < |servings| :: servings[i].plans == plans
  }

  lemma ServedIsJoined(reg: Registry, d: Descriptor, moment: State, classes: map<string, Body>,
                       sv: Serving, service: ServiceRecord)
    requires ServedBy(reg, d, moment, classes, sv, service)
    ensures ViewOf()(service) == JoinAt(classes, sv.plans)(sv.key)
  {
    var keys := Selection(sv.plans, sv.key).Keys;
    OrdersPermute(sv.order, SomeOrder(keys), keys);
    MapPermutes(PlanAt(sv.plans), sv.order, SomeOrder(keys));
  }

  lemma AllServedAreJoined(reg: Registry, d: Descriptor, start: State, others: Others, classes: map<string, Body>,
                           servings: seq<Serving>, services: seq<ServiceRecord>, plans: map<string, Body>)
    requires OthersTyped(reg, others) && OnePlanMap(servings, plans)
    requires Accounts(reg, d, start, others, classes, servings, services)
    ensures MapSeq(ViewOf(), services) == MapSeq(JoinAt(classes, plans), KeysOf(servings))
  {
    forall i | 0 <= i < |services|
      ensures ViewOf()(services[i]) == JoinAt(classes, plans)(servings[i].key)
    {
      assert ServedBy(reg, d, Moment(reg, start, others, i + 1), classes, servings[i], services[i]);
      ServedIsJoined(reg, d, Moment(reg, start, others, i + 1), classes, servings[i], services[i]);
    }
  }

  /**
   With one plan map throughout, the catalog is the join of the classes and the plans, in every
   order the class map and each plan map may have been walked in.
   */
  lemma CatalogIsJoin(reg: Registry, d: Descriptor, start: State, others: Others, classes: map<string, Body>,
                      servings: seq<Serving>, services: seq<ServiceRecord>, plans: map<string, Body>)
    requires OthersTyped(reg, others)
    requires Accounts(reg, d, start, others, classes, servings, services)
    requires Orders(KeysOf(servings), classes.Keys) && OnePlanMap(servings, plans)
    ensures multiset(MapSeq(ViewOf(), services)) == Join(classes, plans)
  {
    var keys := KeysOf(servings);
    AllServedAreJoined(reg, d, start, others, classes, servings, services, plans);
    OrdersPermute(keys, SomeOrder(classes.Keys), classes.Keys);
    MapPermutes(JoinAt(classes, plans), keys, SomeOrder(classes.Keys));
  }

  /** Nobody else writes. */
  ghost predicate Quiet(others: Others) {
    forall i: nat :: others(i) == []
  }

  lemma {:induction false} QuietMoment(reg: Registry, start: State, others: Others, i: nat)
    requires OthersTyped(reg, others) && Quiet(others)
    ensures Moment(reg, start, others, i) == start
  {
    if i > 0 {
      QuietMoment(reg, start, others, i - 1);
    }
  }

  /** The listing of the type fails, or objects that share a key agree. */
  ghost predicate OneReading(reg: Registry, d: Descriptor, s: State, typ: string) {
    AllDecode(reg, d, s, typ, "") ==> KeysAgree(reg, d, s, typ)
  }

  /**
   With no other writer the catalog is the join of the class map and the plan map of the state it
   started in, whichever listings and orders it went through, and whether they failed or not, unless
   two objects share a key and read as different messages.
   */
  lemma QuietCatalogIsSnapshot(reg: Registry, d: Descriptor, start: State, others: Others,
                               classes: map<string, Body>, servings: seq<Serving>, services: seq<ServiceRecord>,
                               classes': map<string, Body>, plans': map<string, Body>)
    requires OthersTyped(reg, others) && Quiet(others) && Named(start)
    requires OneReading(reg, d, start, SERVICE_CLASS.typ) && OneReading(reg, d, start, SERVICE_PLAN.typ)
    requires Reads(reg, d, Moment(reg, start, others, 0), SERVICE_CLASS, classes)
    requires Accounts(reg, d, start, others, classes, servings, services)
    requires Orders(KeysOf(servings), classes.Keys)
    requires Reads(reg, d, start, SERVICE_CLASS, classes') && Reads(reg, d, start, SERVICE_PLAN, plans')
    ensures multiset(MapSeq(ViewOf(), services)) == Join(classes', plans')
  {
    QuietMoment(reg, start, others, 0);
    ReadsDetermined(reg, d, start, SERVICE_CLASS, classes, classes');
    forall i | 0 <= i < |servings| ensures servings[i].plans == plans' {
      QuietMoment(reg, start, others, i + 1);
      assert ServedBy(reg, d, Moment(reg, start, others, i + 1), classes, servings[i], services[i]);
      ReadsDetermined(reg, d, start, SERVICE_PLAN, servings[i].plans, plans');
    }
    CatalogIsJoin(reg, d, start, others, classes, servings, services, plans');
  }

  // ---- Double counting ---------------------------------------------------------------------

  /** The plan under one key offers the service under another. */
  function OfferedBy(plans: map<string, Body>): (string, string) -> bool {
    (k, p) => p in plans && k in ServicesOf(plans[p])
  }

  function PlanCount(services: seq<ServiceRecord>): nat {
    if services == [] then 0 else |services[0].plans| + PlanCount(services[1..])
  }

  /** The existing services a plan names, however often it repeats them. */
  function NamedBy(classes: map<string, Body>, plan: Body): set<string> {
    set k | k in classes && k in ServicesOf(plan)
  }

  function NamedCount(classes: map<string, Body>, plans: map<string, Body>, order: seq<string>): nat
    requires forall i | 0 <= i < |order| :: order[i] in plans
  {
    if order == [] then 0 else |NamedBy(classes, plans[order[0]])| + NamedCount(classes, plans, order[1..])
  }

  /** The plans offering a key are the related ones in the key's row. */
  lemma SelectionIsRow(plans: map<string, Body>, k: string, planOrder: seq<string>)
    requires Orders(planOrder, plans.Keys)
    ensures |Selection(plans, k).Keys| == Row(OfferedBy(plans), k, planOrder)
  {
    RowCounts(OfferedBy(plans), k, planOrder);
    assert Selection(plans, k).Keys == Related(OfferedBy(plans), k, planOrder);
  }

  lemma {:induction false} PlanCountIsRows(classes: map<string, Body>, plans: map<string, Body>, planOrder: seq<string>,
                                           servings: seq<Serving>, services: seq<ServiceRecord>)
    requires Orders(planOrder, plans.Keys) && |services| == |servings|
    requires forall i | 0 <= i < |servings| ::
               Orders(servings[i].order, Selection(plans, servings[i].key).Keys)
               && |services[i].plans| == |servings[i].order|
    ensures PlanCount(services) == SumRows(OfferedBy(plans), KeysOf(servings), planOrder)
  {
    if services != [] {
      PlanCountIsRows(classes, plans, planOrder, servings[1..], services[1..]);
      OrderLength(servings[0].order, Selection(plans, servings[0].key).Keys);
      SelectionIsRow(plans, servings[0].key, planOrder);
      assert KeysOf(servings)[1..] == KeysOf(servings[1..]);
    }
  }

  lemma {:induction false} NamedCountIsColumns(classes: map<string, Body>, plans: map<string, Body>,
                                               keys: seq<string>, order: seq<string>)
    requires Orders(keys, classes.Keys)
    requires forall i | 0 <= i < |order| :: order[i] in plans
    ensures NamedCount(classes, plans, order) == SumColumns(OfferedBy(plans), keys, order)
  {
    if order != [] {
      NamedCountIsColumns(classes, plans, keys, order[1..]);
      ColumnCounts(OfferedBy(plans), keys, order[0]);
      assert Relating(OfferedBy(plans), keys, order[0]) == NamedBy(classes, plans[order[0]]);
    }
  }

  /**
   Counted by service or by plan, the catalog holds the same number of plans: a plan appears once
   for each distinct existing service it names, and repeating a service in its list adds nothing.
   */
  lemma CatalogCountsTwice(reg: Registry, d: Descriptor, start: State, others: Others, classes: map<string, Body>,
                           servings: seq<Serving>, services: seq<ServiceRecord>, plans: map<string, Body>,
                           planOrder: seq<string>)
    requires OthersTyped(reg, others)
    requires Accounts(reg, d, start, others, classes, servings, services)
    requires Orders(KeysOf(servings), classes.Keys) && OnePlanMap(servings, plans)
    requires Orders(planOrder, plans.Keys)
    ensures PlanCount(services) == NamedCount(classes, plans, planOrder)
  {
    forall i | 0 <= i < |servings|
      ensures Orders(servings[i].order, Selection(plans, servings[i].key).Keys)
      ensures |services[i].plans| == |servings[i].order|
    {
      assert ServedBy(reg, d, Moment(reg, start, others, i + 1), classes, servings[i], services[i]);
    }
    PlanCountIsRows(classes, plans, planOrder, servings, services);
    DoubleCount(OfferedBy(plans), KeysOf(servings), planOrder);
    NamedCountIsColumns(classes, plans, KeysOf(servings), planOrder);
  }

  // ---- Other writers -----------------------------------------------------------------------

  /** Any client creates something, with any message. */
  ghost predicate OnlyCreations(others: Others) {
    forall i: nat, j | 0 <= j < |others(i)| :: others(i)[j].op.Create?
  }

  lemma CreationExtends(reg: Registry, d: Descriptor, s: State, op: Op)
    requires Named(s) && OpTyped(reg, op) && op.Create?
    ensures Named(After(reg, d, s, op)) && Extends(s, After(reg, d, s, op))
  {
    AfterKeepsNamed(reg, d, s, op);
  }

  lemma {:induction false} CreationsExtend(reg: Registry, s: State, calls: seq<Call>)
    requires Named(s) && CallsTyped(reg, calls)
    requires forall j | 0 <= j < |calls| :: calls[j].op.Create?
    ensures Named(AfterCalls(reg, s, calls)) && Extends(s, AfterCalls(reg, s, calls))
    decreases |calls|
  {
    if calls != [] {
      CreationExtends(reg, calls[0].client, s, calls[0].op);
      var next := After(reg, calls[0].client, s, calls[0].op);
      CreationsExtend(reg, next, calls[1..]);
      ExtendsTransitive(s, next, AfterCalls(reg, next, calls[1..]));
    }
  }

  lemma ExtendsTransitive(a: State, b: State, c: State)
    requires Extends(a, b) && Extends(b, c)
    ensures Extends(a, c)
  {
  }

  lemma {:induction false} MomentsExtend(reg: Registry, start: State, others: Others, i: nat, j: nat)
    requires OthersTyped(reg, others) && OnlyCreations(others) && Named(start) && i <= j
    ensures Named(Moment(reg, start, others, i)) && Named(Moment(reg, start, others, j))
    ensures Extends(Moment(reg, start, others, i), Moment(reg, start, others, j))
    decreases j
  {
    if i < j {
      MomentsExtend(reg, start, others, i, j - 1);
      CreationsExtend(reg, Moment(reg, start, others, j - 1), others(j));
      ExtendsTransitive(Moment(reg, start, others, i), Moment(reg, start, others, j - 1),
                        Moment(reg, start, others, j));
    } else {
      if j > 0 {
        MomentsExtend(reg, start, others, j - 1, j - 1);
      }
      CreationsExtend(reg, if j == 0 then start else Moment(reg, start, others, j - 1), others(j));
    }
  }

  /** More plans offer a service at least what fewer did, plan by plan with its count. */
  lemma MoreOffered(m: map<string, Body>, m': map<string, Body>, k: string)
    requires SubMap(m, m')
    ensures Offered(m, k) <= Offered(m', k)
  {
    var keys, keys' := Selection(m, k).Keys, Selection(m', k).Keys;
    var order, extra := SomeOrder(keys), SomeOrder(keys' - keys);
    assert keys' == keys + (keys' - keys);
    OrdersJoin(order, extra, keys, keys' - keys);
    OrdersPermute(order + extra, SomeOrder(keys'), keys');
    MapPermutes(PlanAt(m'), order + extra, SomeOrder(keys'));
    MapAppend(PlanAt(m'), order, extra);
    assert MapSeq(PlanAt(m), order) == MapSeq(PlanAt(m'), order);
  }

  /** The plans of a moment are listed without errors, and those that share a key agree. */
  ghost predicate PlansListed(reg: Registry, d: Descriptor, s: State) {
    AllDecode(reg, d, s, SERVICE_PLAN.typ, "") && KeysAgree(reg, d, s, SERVICE_PLAN.typ)
  }

  /** Such a listing offers a service at least what an earlier one did, which was such a listing too. */
  lemma OffersGrow(reg: Registry, d: Descriptor, start: State, others: Others, i: nat, j: nat,
                   m: map<string, Body>, m': map<string, Body>, k: string)
    requires OthersTyped(reg, others) && OnlyCreations(others) && Named(start) && i <= j
    requires Reads(reg, d, Moment(reg, start, others, i), SERVICE_PLAN, m)
    requires Reads(reg, d, Moment(reg, start, others, j), SERVICE_PLAN, m')
    requires PlansListed(reg, d, Moment(reg, start, others, j))
    ensures PlansListed(reg, d, Moment(reg, start, others, i))
    ensures Offered(m, k) <= Offered(m', k)
  {
    var s, s' := Moment(reg, start, others, i), Moment(reg, start, others, j);
    MomentsExtend(reg, start, others, i, j);
    EarlierDecodes(reg, d, s, s', SERVICE_PLAN.typ);
    EarlierAgrees(reg, d, s, s', SERVICE_PLAN.typ);
    ReadsGrow(reg, d, s, s', SERVICE_PLAN, m, m');
    MoreOffered(m, m', k);
  }

  lemma EarlierAgrees(reg: Registry, d: Descriptor, s: State, s': State, typ: string)
    requires Extends(s, s') && KeysAgree(reg, d, s', typ)
    ensures KeysAgree(reg, d, s, typ)
  {
    if SchemaOf(d, typ).Some? {
      var schema := SchemaOf(d, typ).value;
      forall p, q | Covered(d, s, typ, p) && Covered(d, s, typ, q) && KeyAt(typ, p) == KeyAt(typ, q)
        ensures BodyAt(reg, schema, s.objects[p]) == BodyAt(reg, schema, s.objects[q])
      {
        assert Covered(d, s', typ, p) && Covered(d, s', typ, q);
        assert s'.objects[p] == s.objects[p] && s'.objects[q] == s.objects[q];
      }
    }
  }

  /** The plans of a service in the catalog are those offered among the plans read for it. */
  lemma ServedPlans(reg: Registry, d: Descriptor, moment: State, classes: map<string, Body>,
                    sv: Serving, service: ServiceRecord)
    requires ServedBy(reg, d, moment, classes, sv, service)
    ensures multiset(service.plans) == Offered(sv.plans, sv.key)
  {
    ServedIsJoined(reg, d, moment, classes, sv, service);
    assert ViewOf()(service).plans == JoinAt(classes, sv.plans)(sv.key).plans;
  }

  /**
   When the others only create and no listing of the plans fails, the plans of each service in the
   catalog lie, as a multiset, between those that offered it when the classes were read and those
   that offer it at the end. Creations overwrite nothing, so it is enough that the last listing
   reports no error and shows no two plans under one key that differ.
   */
  lemma CreationsBetween(reg: Registry, d: Descriptor, start: State, others: Others, classes: map<string, Body>,
                         servings: seq<Serving>, services: seq<ServiceRecord>, i: nat,
                         first: map<string, Body>, last: map<string, Body>)
    requires OthersTyped(reg, others) && OnlyCreations(others) && Named(start)
    requires Accounts(reg, d, start, others, classes, servings, services) && i < |services|
    requires Reads(reg, d, Moment(reg, start, others, 0), SERVICE_PLAN, first)
    requires Reads(reg, d, Moment(reg, start, others, |services|), SERVICE_PLAN, last)
    requires PlansListed(reg, d, Moment(reg, start, others, |services|))
    ensures Offered(first, servings[i].key) <= multiset(services[i].plans)
    ensures multiset(services[i].plans) <= Offered(last, servings[i].key)
  {
    var sv, moment := servings[i], Moment(reg, start, others, i + 1);
    assert ServedBy(reg, d, moment, classes, sv, services[i]);
    ServedPlans(reg, d, moment, classes, sv, services[i]);
    OffersGrow(reg, d, start, others, i + 1, |services|, sv.plans, last, sv.key);
    OffersGrow(reg, d, start, others, 0, i + 1, first, sv.plans, sv.key);
  }

  /** One plan object that does not decode when a service's plans are listed leaves it without any. */
  lemma UndecodablePlanHidesAll(reg: Registry, d: Descriptor, start: State, others: Others, classes: map<string, Body>,
                                servings: seq<Serving>, services: seq<ServiceRecord>, i: nat, p: Path)
    requires OthersTyped(reg, others) && Accounts(reg, d, start, others, classes, servings, services)
    requires i < |servings| && SchemaOf(d, SERVICE_PLAN.typ) == Some(SERVICE_PLAN)
    requires var s := Moment(reg, start, others, i + 1);
             && p in s.objects && ResourceOf(d, SERVICE_PLAN.typ) == Some(p.resource)
             && ConvertObject(reg, SERVICE_PLAN, s.objects[p]).Err?
    ensures services[i].plans == []
  {
    var s := Moment(reg, start, others, i + 1);
    assert ServedBy(reg, d, s, classes, servings[i], services[i]);
    UndecodableEmpties(reg, d, s, SERVICE_PLAN, servings[i].plans, p);
    assert Selection(servings[i].plans, servings[i].key).Keys == {};
  }
}
