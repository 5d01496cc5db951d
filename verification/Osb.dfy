/** The Open Service Broker catalog and what is copied into it from the configuration messages. */
module Osb {
  import opened Codec

  /** A generated string getter: nil-safe, empty by default. */
  function TextAt(body: seq<Value>, i: nat): string {
    if i < |body| && body[i].Str? then body[i].s else ""
  }

  /** A generated message getter; a nil message reads as one with no fields set. */
  function MessageAt(body: seq<Value>, i: nat): seq<Value> {
    if i < |body| && body[i].Nested? then body[i].body else []
  }

  datatype ServicePlan = ServicePlan(name: string, id: string, description: string)

  /** NewServicePlan: the name, id and description of the plan submessage. */
  function NewServicePlan(sp: seq<Value>): ServicePlan {
    var cp := MessageAt(sp, 0);
    ServicePlan(TextAt(cp, 0), TextAt(cp, 1), TextAt(cp, 2))
  }

  /** The value of a service, as AddService copies it. */
  datatype ServiceRecord = ServiceRecord(name: string, id: string, description: string, plans: seq<ServicePlan>)

  /** A service class as a service without plans. */
  function ServiceOf(sp: seq<Value>): ServiceRecord {
    var cs := MessageAt(sp, 1);
    ServiceRecord(TextAt(cs, 0), TextAt(cs, 1), TextAt(cs, 2), [])
  }

  class Service {
    var name: string
    var id: string
    var description: string
    var plans: seq<ServicePlan>

    /** NewService. */
    constructor (sp: seq<Value>)
      ensures Value() == ServiceOf(sp)
    {
      var cs := MessageAt(sp, 1);
      name, id, description, plans := TextAt(cs, 0), TextAt(cs, 1), TextAt(cs, 2), [];
    }

    function Value(): ServiceRecord
      reads this
    {
      ServiceRecord(name, id, description, plans)
    }

    method AddPlan(plan: ServicePlan)
      modifies this`plans
      ensures plans == old(plans) + [plan]
    {
      plans := plans + [plan];
    }
  }

  class Catalog {
    var services: seq<ServiceRecord>

    constructor ()
      ensures services == []
    {
      services := [];
    }

    method AddService(service: Service)
      modifies this
      ensures services == old(services) + [service.Value()]
    {
      services := services + [service.Value()];
    }
  }
}
