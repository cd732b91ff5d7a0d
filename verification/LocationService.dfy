/** The read path: a hit refreshes the order's heartbeat, a miss starts tracking it and asks for an urgent sync. */
module LocationService {
  import opened Domain
  import opened MemoryCache

  datatype Response = InvalidOrderId | Hit(location: CourierLocation) | Miss

  /** What a request does to the cache, and its answer. */
  function Request(s: Store, id: Id, heartbeatTtl: Time, now: Time): (Store, Response) {
    if id <= 0 then (s, InvalidOrderId)
    else
      match Read(s.locations, id, now)
      case Some(location) => (s.Track(id, heartbeatTtl, now), Hit(location))
      case None => (s.Track(id, heartbeatTtl, now), Miss)
  }

  /** The buffered channel of urgent syncs. */
  class UrgentQueue {
    const capacity: nat
    var pending: seq<Id>

    constructor (capacity: nat)
      ensures this.capacity == capacity && pending == []
    {
      this.capacity := capacity;
      pending := [];
    }

    /** Never blocks: a full queue drops the id. */
    method TriggerUrgentSync(id: Id)
      modifies this
      ensures pending == if old(|pending|) < capacity then old(pending) + [id] else old(pending)
    {
      if |pending| < capacity {
        pending := pending + [id];
      }
    }
  }

  class LocationService {
    const cacheRepo: MemoryCacheRepository
    const urgent: UrgentQueue?
    const heartbeatTtl: Time

    constructor (cacheRepo: MemoryCacheRepository, urgent: UrgentQueue?, heartbeatTtl: Time)
      ensures this.cacheRepo == cacheRepo && this.urgent == urgent && this.heartbeatTtl == heartbeatTtl
    {
      this.cacheRepo := cacheRepo;
      this.urgent := urgent;
      this.heartbeatTtl := heartbeatTtl;
    }

    method GetCourierLocation(id: Id, now: Time) returns (r: Response)
      modifies cacheRepo, urgent
      ensures (cacheRepo.State(), r) == Request(old(cacheRepo.State()), id, heartbeatTtl, now)
      ensures id <= 0 ==> r == InvalidOrderId && cacheRepo.State() == old(cacheRepo.State())
      ensures id > 0 ==> match Read(old(cacheRepo.locations), id, now)
        case Some(location) => r == Hit(location)
        case None => r == Miss
      ensures id > 0 ==>
        cacheRepo.State() == old(cacheRepo.State()).(activeOrders := old(cacheRepo.activeOrders)[id := now + heartbeatTtl])
      ensures urgent != null ==>
        urgent.pending ==
          if r.Miss? && old(|urgent.pending|) < urgent.capacity then old(urgent.pending) + [id] else old(urgent.pending)
    {
      if id <= 0 {
        return InvalidOrderId;
      }
      var location := cacheRepo.GetOrderLocation(id, now);
      if location.Some? {
        cacheRepo.RefreshOrderHeartbeat(id, heartbeatTtl, now);
        return Hit(location.value);
      }
      cacheRepo.RegisterActiveOrder(id, heartbeatTtl, now);
      if urgent != null {
        urgent.TriggerUrgentSync(id);
      }
      return Miss;
    }
  }
}
