/** The in-memory cache: typed maps whose entries expire lazily. */
module MemoryCache {
  import opened Domain

  /** A cached value; an expiry equal to the zero time means that it never expires. */
  datatype Item<+T> = Item(value: T, expiresAt: Time) {
    predicate IsExpired(now: Time) {
      expiresAt != ZERO_TIME && now > expiresAt
    }
  }

  datatype Lock = Lock(owner: string, expiresAt: Time)

  /** The expiry of an entry written at `now`. */
  function Expiry(now: Time, ttl: Time): Time {
    if ttl > 0 then now + ttl else ZERO_TIME
  }

  function Read<T>(m: map<Id, Item<T>>, id: Id, now: Time): Option<T> {
    if id in m && !m[id].IsExpired(now) then Some(m[id].value) else None
  }

  /** Stores the locations one after the other, so a later one for the same order wins. */
  function PutLocations(m: map<Id, Item<CourierLocation>>, locations: seq<CourierLocation>, expiresAt: Time)
    : map<Id, Item<CourierLocation>>
  {
    if locations == [] then m
    else
      var last := locations[|locations| - 1];
      PutLocations(m, locations[..|locations| - 1], expiresAt)[last.orderId := Item(last, expiresAt)]
  }

  function PutMappings(m: map<Id, Item<Id>>, orders: seq<Order>, expiresAt: Time): map<Id, Item<Id>> {
    if orders == [] then m
    else
      var last := orders[|orders| - 1];
      PutMappings(m, orders[..|orders| - 1], expiresAt)[last.id := Item(last.courierId, expiresAt)]
  }

  function Touch(m: map<Id, Time>, orders: seq<Order>, expiresAt: Time): map<Id, Time> {
    if orders == [] then m
    else Touch(m, orders[..|orders| - 1], expiresAt)[orders[|orders| - 1].id := expiresAt]
  }

  function OrderIds(orders: seq<Order>): set<Id> {
    set o | o in orders :: o.id
  }

  lemma {:induction false} TouchedHeartbeats(m: map<Id, Time>, orders: seq<Order>, expiresAt: Time)
    ensures Touch(m, orders, expiresAt).Keys == m.Keys + OrderIds(orders)
    ensures forall id :: id in Touch(m, orders, expiresAt) ==>
      Touch(m, orders, expiresAt)[id] == if id in OrderIds(orders) then expiresAt else m[id]
  {
    if orders != [] {
      var n := |orders| - 1;
      TouchedHeartbeats(m, orders[..n], expiresAt);
      assert orders == orders[..n] + [orders[n]];
      assert OrderIds(orders) == OrderIds(orders[..n]) + {orders[n].id};
    }
  }

  /** The whole content of the cache at one moment. */
  datatype Store = Store(
    locations: map<Id, Item<CourierLocation>>,
    courierMaps: map<Id, Item<Id>>,
    activeOrders: map<Id, Time>,
    lastSync: Time,
    leaderLocks: map<string, Lock>,
    preWarmed: bool
  ) {
    function SetLocation(location: CourierLocation, ttl: Time, now: Time): Store {
      this.(locations := locations[location.orderId := Item(location, Expiry(now, ttl))])
    }

    function SetLocations(batch: seq<CourierLocation>, ttl: Time, now: Time): Store {
      this.(locations := PutLocations(locations, batch, Expiry(now, ttl)))
    }

    function SetMapping(orderId: Id, courierId: Id, ttl: Time, now: Time): Store {
      this.(courierMaps := courierMaps[orderId := Item(courierId, Expiry(now, ttl))])
    }

    /** Registering an order and refreshing its heartbeat are the same write here. */
    function Track(orderId: Id, heartbeatTtl: Time, now: Time): Store {
      this.(activeOrders := activeOrders[orderId := now + heartbeatTtl])
    }

    function Purge(now: Time): Store {
      this.(activeOrders := map id | id in activeOrders && now <= activeOrders[id] :: activeOrders[id])
    }

    /** The unexpired lock under a key. */
    function Holder(key: string, now: Time): Option<Lock> {
      if key in leaderLocks && now <= leaderLocks[key].expiresAt then Some(leaderLocks[key]) else None
    }

    function Acquire(key: string, instance: string, ttl: Time, now: Time): (Store, bool) {
      var holder := Holder(key, now);
      if holder.None? || holder.value.owner == instance then
        (this.(leaderLocks := leaderLocks[key := Lock(instance, now + ttl)]), true)
      else (this, false)
    }

    function Renew(key: string, instance: string, ttl: Time, now: Time): (Store, bool) {
      var holder := Holder(key, now);
      if holder.Some? && holder.value.owner == instance then
        (this.(leaderLocks := leaderLocks[key := Lock(instance, now + ttl)]), true)
      else (this, false)
    }

    function Release(key: string, instance: string): Store {
      if key in leaderLocks && leaderLocks[key].owner == instance then
        this.(leaderLocks := leaderLocks - {key})
      else this
    }

    function PreWarm(orders: seq<Order>, heartbeatTtl: Time, mappingTtl: Time, now: Time): Store {
      this.(
        activeOrders := Touch(activeOrders, orders, Expiry(now, heartbeatTtl)),
        courierMaps := PutMappings(courierMaps, orders, Expiry(now, mappingTtl))
      )
    }
  }

  const EMPTY_STORE := Store(map[], map[], map[], ZERO_TIME, map[], false)

  /** The cache object; each call reads the clock once, as `now`. */
  class MemoryCacheRepository {
    var locations: map<Id, Item<CourierLocation>>
    var courierMaps: map<Id, Item<Id>>
    var activeOrders: map<Id, Time>
    var lastSync: Time
    var leaderLocks: map<string, Lock>
    var preWarmed: bool

    ghost function State(): Store
      reads this
    {
      Store(locations, courierMaps, activeOrders, lastSync, leaderLocks, preWarmed)
    }

    constructor ()
      ensures State() == EMPTY_STORE
    {
      locations := map[];
      courierMaps := map[];
      activeOrders := map[];
      lastSync := ZERO_TIME;
      leaderLocks := map[];
      preWarmed := false;
    }

    method GetOrderLocation(orderId: Id, now: Time) returns (r: Option<CourierLocation>)
      ensures r == Read(State().locations, orderId, now)
    {
      if orderId !in locations || locations[orderId].IsExpired(now) {
        return None;
      }
      return Some(locations[orderId].value);
    }

    method SetOrderLocation(location: CourierLocation, ttl: Time, now: Time)
      modifies this
      ensures State() == old(State()).SetLocation(location, ttl, now)
    {
      var exp := ZERO_TIME;
      if ttl > 0 {
        exp := now + ttl;
      }
      locations := locations[location.orderId := Item(location, exp)];
    }

    method SetOrderLocationsBatch(batch: seq<CourierLocation>, ttl: Time, now: Time)
      modifies this
      ensures State() == old(State()).SetLocations(batch, ttl, now)
    {
      var exp := ZERO_TIME;
      if ttl > 0 {
        exp := now + ttl;
      }
      for i := 0 to |batch|
        invariant State() == old(State()).(locations := PutLocations(old(locations), batch[..i], exp))
      {
        assert batch[..i + 1][..i] == batch[..i];
        locations := locations[batch[i].orderId := Item(batch[i], exp)];
      }
      assert batch[..|batch|] == batch;
    }

    method GetOrderCourierMapping(orderId: Id, now: Time) returns (r: Option<Id>)
      ensures r == Read(State().courierMaps, orderId, now)
    {
      if orderId !in courierMaps || courierMaps[orderId].IsExpired(now) {
        return None;
      }
      return Some(courierMaps[orderId].value);
    }

    method SetOrderCourierMapping(orderId: Id, courierId: Id, ttl: Time, now: Time)
      modifies this
      ensures State() == old(State()).SetMapping(orderId, courierId, ttl, now)
    {
      var exp := ZERO_TIME;
      if ttl > 0 {
        exp := now + ttl;
      }
      courierMaps := courierMaps[orderId := Item(courierId, exp)];
    }

    method RegisterActiveOrder(orderId: Id, heartbeatTtl: Time, now: Time)
      modifies this
      ensures State() == old(State()).Track(orderId, heartbeatTtl, now)
    {
      activeOrders := activeOrders[orderId := now + heartbeatTtl];
    }

    /** The tracked ids, each once, in whatever order the map is walked. */
    method GetActiveOrderIDs() returns (ids: seq<Id>)
      ensures forall id: Id :: id in ids <==> id in State().activeOrders
      ensures forall i, j :: 0 <= i < j < |ids| ==> ids[i] != ids[j]
    {
      ids := [];
      var rest := activeOrders.Keys;
      while rest != {}
        invariant rest <= activeOrders.Keys
        invariant forall id: Id :: id in activeOrders <==> id in ids || id in rest
        invariant forall id :: id in ids ==> id !in rest
        invariant forall i, j :: 0 <= i < j < |ids| ==> ids[i] != ids[j]
        decreases rest
      {
        var id :| id in rest;
        rest := rest - {id};
        ids := ids + [id];
      }
    }

    method RefreshOrderHeartbeat(orderId: Id, heartbeatTtl: Time, now: Time)
      modifies this
      ensures State() == old(State()).Track(orderId, heartbeatTtl, now)
    {
      activeOrders := activeOrders[orderId := now + heartbeatTtl];
    }

    method RemoveInactiveOrders(now: Time)
      modifies this
      ensures State() == old(State()).Purge(now)
    {
      var rest := activeOrders.Keys;
      while rest != {}
        invariant rest <= activeOrders.Keys <= old(activeOrders).Keys
        invariant forall id :: id in activeOrders ==> activeOrders[id] == old(activeOrders)[id]
        invariant forall id :: id in old(activeOrders) && id !in rest ==>
          (id in activeOrders <==> now <= old(activeOrders)[id])
        invariant State() == old(State()).(activeOrders := activeOrders)
        decreases rest
      {
        var id :| id in rest;
        rest := rest - {id};
        if now > activeOrders[id] {
          activeOrders := activeOrders - {id};
        }
      }
      assert activeOrders == old(State()).Purge(now).activeOrders;
    }

    method SetLastSync(timestamp: Time)
      modifies this
      ensures State() == old(State()).(lastSync := timestamp)
    {
      lastSync := timestamp;
    }

    method GetLastSync() returns (timestamp: Time)
      ensures timestamp == State().lastSync
    {
      return lastSync;
    }

    method AcquireLeaderLock(key: string, instance: string, ttl: Time, now: Time) returns (acquired: bool)
      modifies this
      ensures (State(), acquired) == old(State()).Acquire(key, instance, ttl, now)
    {
      if key !in leaderLocks || now > leaderLocks[key].expiresAt {
        leaderLocks := leaderLocks[key := Lock(instance, now + ttl)];
        return true;
      }
      if leaderLocks[key].owner == instance {
        leaderLocks := leaderLocks[key := Lock(instance, now + ttl)];
        return true;
      }
      return false;
    }

    method RenewLeaderLock(key: string, instance: string, ttl: Time, now: Time) returns (renewed: bool)
      modifies this
      ensures (State(), renewed) == old(State()).Renew(key, instance, ttl, now)
    {
      if key !in leaderLocks || now > leaderLocks[key].expiresAt {
        return false;
      }
      if leaderLocks[key].owner == instance {
        leaderLocks := leaderLocks[key := Lock(instance, now + ttl)];
        return true;
      }
      return false;
    }

    method ReleaseLeaderLock(key: string, instance: string)
      modifies this
      ensures State() == old(State()).Release(key, instance)
    {
      if key in leaderLocks && leaderLocks[key].owner == instance {
        leaderLocks := leaderLocks - {key};
      }
    }

    method PreWarmOrders(orders: seq<Order>, heartbeatTtl: Time, mappingTtl: Time, now: Time)
      modifies this
      ensures State() == old(State()).PreWarm(orders, heartbeatTtl, mappingTtl, now)
    {
      var heartbeatExp, mappingExp := ZERO_TIME, ZERO_TIME;
      if heartbeatTtl > 0 {
        heartbeatExp := now + heartbeatTtl;
      }
      if mappingTtl > 0 {
        mappingExp := now + mappingTtl;
      }
      for i := 0 to |orders|
        invariant State() == old(State()).(
          activeOrders := Touch(old(activeOrders), orders[..i], heartbeatExp),
          courierMaps := PutMappings(old(courierMaps), orders[..i], mappingExp))
      {
        assert orders[..i + 1][..i] == orders[..i];
        activeOrders := activeOrders[orders[i].id := heartbeatExp];
        courierMaps := courierMaps[orders[i].id := Item(orders[i].courierId, mappingExp)];
      }
      assert orders[..|orders|] == orders;
    }

    method SetPreWarmed()
      modifies this
      ensures State() == old(State()).(preWarmed := true)
    {
      preWarmed := true;
    }

    method IsPreWarmed() returns (set_: bool)
      ensures set_ == State().preWarmed
    {
      return preWarmed;
    }
  }
}
