/** The script's three memoising getters and the module-level dictionaries
    they update, as one object. `log` records every GET the getters issue. */
module Resolvers {
  import opened Records
  import opened Text
  import opened Resolution

  /** What a department or location reply yields: `.get(kind, {}).get("name")`. */
  function NamedAnswer(reply: NamedReply): (a: Answer)
    ensures a.status == reply.status
    ensures reply.entity.None? ==> a.name.None?
    ensures reply.entity.Some? ==> a.name == reply.entity.value.name
  {
    Answer(reply.status, NameField(reply.entity))
  }

  /** What a requester reply yields: the display name of its first and last
      names; an absent `requester` object has neither. */
  function RequesterAnswer(reply: RequesterReply): (a: Answer)
    ensures a.status == reply.status
    ensures reply.requester.None? ==> a.name.None?
    ensures reply.requester.Some? ==>
      a.name == DisplayName(reply.requester.value.firstName, reply.requester.value.lastName)
    ensures a.name.Some? ==> a.name.value != [] && Trimmed(a.name.value, Whitespace)
  {
    match reply.requester
    case None => Answer(reply.status, DisplayName("", ""))
    case Some(p) => Answer(reply.status, DisplayName(p.firstName, p.lastName))
  }

  class ReferenceResolver {
    var deptCache: Cache
    var locationCache: Cache
    var requesterCache: Cache
    ghost var log: seq<Lookup>

    /** The caches and the log as a value of the pure model. */
    ghost function State(): CacheState
      reads this
    {
      CacheState(deptCache, locationCache, requesterCache, log)
    }

    ghost predicate Valid()
      reads this
    {
      Coherent(State())
    }

    /** The three dictionaries start empty, before any lookup. */
    constructor ()
      ensures Valid() && State() == Empty
    {
      deptCache, locationCache, requesterCache := map[], map[], map[];
      log := [];
    }

    /** `get_department_name(dept_id)`; `reply` is the server's answer to
        the GET, used only when the GET is issued. */
    method DepartmentName(deptId: Option<Key>, reply: NamedReply) returns (name: Option<string>)
      requires Valid()
      modifies this
      ensures Valid()
      ensures (name, State()) == ResolveIn(old(State()), Department, deptId, NamedAnswer(reply))
    {
      ResolveInKeepsCoherent(State(), Department, deptId, NamedAnswer(reply));
      if !Truthy(deptId) {
        return None;
      }
      var key := deptId.value;
      if key in deptCache {
        return deptCache[key];
      }
      log := log + [Lookup(Department, key, reply.status)];
      if reply.status == 200 {
        name := NameField(reply.entity);
        deptCache := deptCache[key := name];
      } else {
        name := None;
      }
    }

    /** `get_location_name(loc_id)`; `reply` is the server's answer to the
        GET, used only when the GET is issued. */
    method LocationName(locId: Option<Key>, reply: NamedReply) returns (name: Option<string>)
      requires Valid()
      modifies this
      ensures Valid()
      ensures (name, State()) == ResolveIn(old(State()), Location, locId, NamedAnswer(reply))
    {
      ResolveInKeepsCoherent(State(), Location, locId, NamedAnswer(reply));
      if !Truthy(locId) {
        return None;
      }
      var key := locId.value;
      if key in locationCache {
        return locationCache[key];
      }
      log := log + [Lookup(Location, key, reply.status)];
      if reply.status == 200 {
        name := NameField(reply.entity);
        locationCache := locationCache[key := name];
      } else {
        name := None;
      }
    }

    /** `get_requester_name(user_id)`; `reply` is the server's answer to
        the GET, used only when the GET is issued. */
    method RequesterName(userId: Option<Key>, reply: RequesterReply) returns (name: Option<string>)
      requires Valid()
      modifies this
      ensures Valid()
      ensures (name, State()) == ResolveIn(old(State()), Requester, userId, RequesterAnswer(reply))
    {
      ResolveInKeepsCoherent(State(), Requester, userId, RequesterAnswer(reply));
      if !Truthy(userId) {
        return None;
      }
      var key := userId.value;
      if key in requesterCache {
        return requesterCache[key];
      }
      log := log + [Lookup(Requester, key, reply.status)];
      if reply.status == 200 {
        var person := match reply.requester case None => Person("", "") case Some(p) => p;
        name := DisplayName(person.firstName, person.lastName);
        requesterCache := requesterCache[key := name];
      } else {
        name := None;
      }
    }
  }
}
