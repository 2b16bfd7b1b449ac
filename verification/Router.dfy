/** The router's map of services, rebuilt in every watch round. */
module Routers {

  datatype ServiceName = ServiceName(text: string)

  class ServiceObject {
    const name: ServiceName
    var stops: nat            // how often Stop was called

    constructor (name: ServiceName)
      ensures this.name == name && stops == 0
    {
      this.name, stops := name, 0;
    }

    method Stop()
      modifies this`stops
      ensures stops == old(stops) + 1
    {
      stops := stops + 1;
    }
  }

  class Router {
    var services: map<ServiceName, ServiceObject>
    ghost var created: set<ServiceObject>

    /** Every object ever created is in the map under its name and was never stopped, or is out
        of it for good and was stopped once. */
    ghost predicate Valid()
      reads this, created
    {
      && (forall n :: n in services ==> services[n] in created && services[n].name == n)
      && (forall o :: o in created ==> o.stops == if o.name in services && services[o.name] == o then 0 else 1)
    }

    constructor ()
      ensures Valid() && services == map[] && created == {}
    {
      services, created := map[], {};
    }

    method GetBackService(service: ServiceName) returns (r: ServiceObject?)
      ensures r == if service in services then services[service] else null
    {
      if service in services {
        r := services[service];
      } else {
        r := null;
      }
    }

    method AddBackService(service: ServiceName)
      modifies this`services, this`created
      ensures service in services && services == old(services)[service := services[service]]
      ensures service in old(services) ==> services == old(services) && created == old(created)
      ensures service !in old(services) ==>
        && fresh(services[service]) && services[service].name == service && services[service].stops == 0
        && created == old(created) + {services[service]}
    {
      if service !in services {
        var o := new ServiceObject(service);
        created := created + {o};
        services := services[service := o];
      }
    }

    /** One watch round, on whatever names the registry lists, repeated ones included. */
    method Reconcile(names: seq<ServiceName>)
      requires Valid()
      modifies this, created
      ensures Valid() && old(created) <= created && fresh(created - old(created))
      ensures forall n :: n in services <==> n in names
      ensures forall n :: n in names && n in old(services) ==> services[n] == old(services[n])
      ensures forall o :: o in old(created) ==>
        o.stops == old(o.stops) +
          if o.name in old(services) && old(services[o.name]) == o && o.name !in names then 1 else 0
    {
      var oldServices := Rebuild(names);
      StopAll(oldServices);
    }

    /** The loop over the names: survivors move over, newcomers are created, and what is left of
        the old map is returned. */
    method Rebuild(names: seq<ServiceName>) returns (oldServices: map<ServiceName, ServiceObject>)
      requires Valid()
      modifies this`services, this`created
      ensures old(created) <= created && fresh(created - old(created))
      ensures forall o :: o in created - old(created) ==> o.stops == 0 && o.name in services && services[o.name] == o
      ensures forall n :: n in services <==> n in names
      ensures forall n :: n in services ==>
        services[n] in created && services[n].name == n && (n in old(services) ==> services[n] == old(services[n]))
      ensures forall n :: n in services && n !in old(services) ==> services[n] !in old(created)
      ensures forall n :: n in oldServices <==> n in old(services) && n !in names
      ensures forall n :: n in oldServices ==> oldServices[n] == old(services[n])
    {
      ghost var before := services;
      oldServices := services;
      services := map[];
      for i := 0 to |names|
        invariant old(created) <= created && fresh(created - old(created))
        invariant forall o :: o in created - old(created) ==>
          o.stops == 0 && o.name in services && services[o.name] == o
        invariant forall n :: n in services <==> n in names[..i]
        invariant forall n :: n in services ==>
          services[n] in created && services[n].name == n && (n in before ==> services[n] == before[n])
        invariant forall n :: n in services && n !in before ==> services[n] !in old(created)
        invariant forall n :: n in oldServices <==> n in before && n !in names[..i]
        invariant forall n :: n in oldServices ==> oldServices[n] == before[n]
      {
        var service := names[i];
        assert names[..i + 1] == names[..i] + [service];
        if service in oldServices {
          services := services[service := oldServices[service]];
          oldServices := oldServices - {service};
        } else {
          AddBackService(service);
        }
      }
      assert names[..|names|] == names;
    }

    method StopAll(dropped: map<ServiceName, ServiceObject>)
      requires forall n :: n in dropped ==> dropped[n] in created && dropped[n].name == n
      modifies created`stops
      ensures forall o :: o in created ==>
        o.stops == old(o.stops) + if o.name in dropped && dropped[o.name] == o then 1 else 0
    {
      var todo := dropped.Keys;
      while todo != {}
        invariant todo <= dropped.Keys
        invariant forall o :: o in created ==>
          o.stops == old(o.stops) + if o.name in dropped && o.name !in todo && dropped[o.name] == o then 1 else 0
        decreases todo
      {
        var n :| n in todo;
        todo := todo - {n};
        dropped[n].Stop();
      }
    }
  }
}
