/**
 The sync path: one order at a time (SyncOrder), all tracked orders at once
 (SyncActiveOrders), and the start-up pre-warm (PreWarmCache).
 */
module PollerService {
  import opened Domain
  import opened MemoryCache

  /** What Order Service and Courier Service answer during one cycle; an absent id is an error. */
  datatype External = External(orders: map<Id, Id>, positions: map<Id, Coordinates>)

  datatype Config = Config(locationTtl: Time, mappingTtl: Time, heartbeatTtl: Time)

  function ToSet<T>(s: seq<T>): set<T> {
    set x | x in s
  }

  predicate NoDuplicates<T(==)>(s: seq<T>) {
    forall i, j :: 0 <= i < j < |s| ==> s[i] != s[j]
  }

  lemma ToSetAppend<T>(s: seq<T>, x: T)
    ensures ToSet(s + [x]) == ToSet(s) + {x}
  {
  }

  /** The part of a call log written after `before`. */
  function Since(log: seq<Id>, before: seq<Id>): seq<Id>
    requires before <= log
  {
    log[|before|..]
  }

  /** The courier an order resolves to: the cached mapping, else Order Service. */
  function Resolve(s: Store, ext: External, id: Id, now: Time): Option<Id> {
    match Read(s.courierMaps, id, now)
    case Some(courierId) => Some(courierId)
    case None => if id in ext.orders then Some(ext.orders[id]) else None
  }

  function Fix(id: Id, courierId: Id, ext: External, now: Time): CourierLocation
    requires courierId in ext.positions
  {
    CourierLocation(id, courierId, ext.positions[courierId], now)
  }

  /** SyncOrder as a state change: resolve, remember a fresh mapping, ask the courier, store. */
  function SyncOne(s: Store, ext: External, cfg: Config, id: Id, now: Time): Store {
    match Resolve(s, ext, id, now)
    case None => s
    case Some(courierId) =>
      var mapped := if Read(s.courierMaps, id, now).None? then s.SetMapping(id, courierId, cfg.mappingTtl, now) else s;
      if courierId in ext.positions then mapped.SetLocation(Fix(id, courierId, ext, now), cfg.locationTtl, now)
      else mapped
  }

  /** The naive loop: SyncOrder for each listed order. */
  function SyncEach(s: Store, ext: External, cfg: Config, ids: seq<Id>, now: Time): Store {
    if ids == [] then s
    else SyncOne(SyncEach(s, ext, cfg, ids[..|ids| - 1], now), ext, cfg, ids[|ids| - 1], now)
  }

  /** Orders among `ids` whose mapping is fetched anew. */
  function Unmapped(s: Store, ext: External, ids: set<Id>, now: Time): set<Id> {
    set id | id in ids && Read(s.courierMaps, id, now).None? && id in ext.orders
  }

  /** Orders among `ids` whose courier answers. */
  function Answered(s: Store, ext: External, ids: set<Id>, now: Time): set<Id> {
    set id | id in ids && Resolve(s, ext, id, now).Some? && Resolve(s, ext, id, now).value in ext.positions
  }

  function ResolvedCouriers(s: Store, ext: External, ids: set<Id>, now: Time): set<Id> {
    set id | id in ids && Resolve(s, ext, id, now).Some? :: Resolve(s, ext, id, now).value
  }

  function MappingsAfter(s: Store, ext: External, cfg: Config, ids: set<Id>, now: Time): map<Id, Item<Id>> {
    map id | id in s.courierMaps.Keys + Unmapped(s, ext, ids, now) ::
      if id in Unmapped(s, ext, ids, now) then Item(ext.orders[id], Expiry(now, cfg.mappingTtl)) else s.courierMaps[id]
  }

  function LocationsAfter(s: Store, ext: External, cfg: Config, ids: set<Id>, now: Time): map<Id, Item<CourierLocation>> {
    map id | id in s.locations.Keys + Answered(s, ext, ids, now) ::
      if id in Answered(s, ext, ids, now)
      then Item(Fix(id, Resolve(s, ext, id, now).value, ext, now), Expiry(now, cfg.locationTtl))
      else s.locations[id]
  }

  /** Order by order: what a sync of the set `ids` leaves behind. */
  function SyncSet(s: Store, ext: External, cfg: Config, ids: set<Id>, now: Time): Store {
    s.(courierMaps := MappingsAfter(s, ext, cfg, ids, now), locations := LocationsAfter(s, ext, cfg, ids, now))
  }

  /** A mapping just written is readable at once, whatever its TTL. */
  lemma FreshMappingReadable(s: Store, ext: External, cfg: Config, ids: set<Id>, id: Id, now: Time)
    ensures Resolve(SyncSet(s, ext, cfg, ids, now), ext, id, now) == Resolve(s, ext, id, now)
    ensures Read(MappingsAfter(s, ext, cfg, ids, now), id, now).None?
      <==> Read(s.courierMaps, id, now).None? && id !in Unmapped(s, ext, ids, now)
  {
  }

  lemma MappingsOneMore(s: Store, ext: External, cfg: Config, ids: set<Id>, id: Id, now: Time)
    ensures SyncOne(SyncSet(s, ext, cfg, ids, now), ext, cfg, id, now).courierMaps
      == MappingsAfter(s, ext, cfg, ids + {id}, now)
  {
    FreshMappingReadable(s, ext, cfg, ids, id, now);
    var before := MappingsAfter(s, ext, cfg, ids, now);
    if id in Unmapped(s, ext, {id}, now) {
      assert Unmapped(s, ext, ids + {id}, now) == Unmapped(s, ext, ids, now) + {id};
      assert MappingsAfter(s, ext, cfg, ids + {id}, now) == before[id := Item(ext.orders[id], Expiry(now, cfg.mappingTtl))];
    } else {
      assert Unmapped(s, ext, ids + {id}, now) == Unmapped(s, ext, ids, now);
    }
  }

  lemma {:induction false} LocationsOneMore(s: Store, ext: External, cfg: Config, ids: set<Id>, id: Id, now: Time)
    ensures SyncOne(SyncSet(s, ext, cfg, ids, now), ext, cfg, id, now).locations
      == LocationsAfter(s, ext, cfg, ids + {id}, now)
  {
    FreshMappingReadable(s, ext, cfg, ids, id, now);
    var before := LocationsAfter(s, ext, cfg, ids, now);
    if id in Answered(s, ext, {id}, now) {
      assert Answered(s, ext, ids + {id}, now) == Answered(s, ext, ids, now) + {id};
      assert LocationsAfter(s, ext, cfg, ids + {id}, now)
        == before[id := Item(Fix(id, Resolve(s, ext, id, now).value, ext, now), Expiry(now, cfg.locationTtl))];
    } else {
      assert Answered(s, ext, ids + {id}, now) == Answered(s, ext, ids, now);
    }
  }

  lemma {:induction false} SyncSetOneMore(s: Store, ext: External, cfg: Config, ids: set<Id>, id: Id, now: Time)
    ensures SyncOne(SyncSet(s, ext, cfg, ids, now), ext, cfg, id, now) == SyncSet(s, ext, cfg, ids + {id}, now)
  {
    MappingsOneMore(s, ext, cfg, ids, id, now);
    LocationsOneMore(s, ext, cfg, ids, id, now);
  }

  /** The naive loop over any listing of a set, in any order and even with repeats, does what SyncSet says. */
  lemma {:induction false} SyncEachIsSyncSet(s: Store, ext: External, cfg: Config, ids: seq<Id>, now: Time)
    ensures SyncEach(s, ext, cfg, ids, now) == SyncSet(s, ext, cfg, ToSet(ids), now)
  {
    if ids == [] {
      NothingToSync(s, ext, cfg, ToSet(ids), now);
    } else {
      var n := |ids| - 1;
      SyncEachIsSyncSet(s, ext, cfg, ids[..n], now);
      SyncSetOneMore(s, ext, cfg, ToSet(ids[..n]), ids[n], now);
      ToSetAppend(ids[..n], ids[n]);
      assert ids == ids[..n] + [ids[n]];
    }
  }

  function BatchIds(batch: seq<CourierLocation>): set<Id> {
    set l | l in batch :: l.orderId
  }

  /** A batch without conflicting entries writes each of its orders once and nothing else. */
  lemma {:induction false} PutLocationsPointwise(
    m: map<Id, Item<CourierLocation>>, batch: seq<CourierLocation>, expiresAt: Time)
    requires forall a, b :: a in batch && b in batch && a.orderId == b.orderId ==> a == b
    ensures PutLocations(m, batch, expiresAt).Keys == m.Keys + BatchIds(batch)
    ensures forall l :: l in batch ==> PutLocations(m, batch, expiresAt)[l.orderId] == Item(l, expiresAt)
    ensures forall id :: id in m && id !in BatchIds(batch) ==> PutLocations(m, batch, expiresAt)[id] == m[id]
  {
    if batch != [] {
      var n := |batch| - 1;
      PutLocationsPointwise(m, batch[..n], expiresAt);
      assert batch == batch[..n] + [batch[n]];
      assert BatchIds(batch) == BatchIds(batch[..n]) + {batch[n].orderId};
    }
  }

  /** The batch that SyncActiveOrders writes is exactly the set of answered orders. */
  lemma BatchIsLocationsAfter(
    s: Store, ext: External, cfg: Config, ids: set<Id>, batch: seq<CourierLocation>, now: Time)
    requires forall l :: l in batch <==>
      l.orderId in Answered(s, ext, ids, now) && l == Fix(l.orderId, Resolve(s, ext, l.orderId, now).value, ext, now)
    ensures PutLocations(s.locations, batch, Expiry(now, cfg.locationTtl)) == LocationsAfter(s, ext, cfg, ids, now)
  {
    PutLocationsPointwise(s.locations, batch, Expiry(now, cfg.locationTtl));
    forall id | id in Answered(s, ext, ids, now)
      ensures id in BatchIds(batch)
    {
      assert Fix(id, Resolve(s, ext, id, now).value, ext, now) in batch;
    }
    assert BatchIds(batch) == Answered(s, ext, ids, now);
    assert PutLocations(s.locations, batch, Expiry(now, cfg.locationTtl)) == LocationsAfter(s, ext, cfg, ids, now);
  }

  /** The locations of one courier's orders, in listed order. */
  function CourierBatch(courierId: Id, orderIds: seq<Id>, coordinates: Coordinates, now: Time): (batch: seq<CourierLocation>)
    ensures forall l :: l in batch <==>
      l.orderId in orderIds && l == CourierLocation(l.orderId, courierId, coordinates, now)
  {
    if orderIds == [] then []
    else
      var n := |orderIds| - 1;
      assert orderIds == orderIds[..n] + [orderIds[n]];
      CourierBatch(courierId, orderIds[..n], coordinates, now)
      + [CourierLocation(orderIds[n], courierId, coordinates, now)]
  }

  /** The batch built by walking the answered couriers in the order `visit`. */
  function Batch(visit: seq<Id>, coordinates: map<Id, Coordinates>, courierToOrders: map<Id, seq<Id>>, now: Time)
    : (batch: seq<CourierLocation>)
    requires ToSet(visit) <= coordinates.Keys && ToSet(visit) <= courierToOrders.Keys
    ensures forall l :: l in batch <==>
      l.courierId in visit && l.orderId in courierToOrders[l.courierId]
      && l == CourierLocation(l.orderId, l.courierId, coordinates[l.courierId], now)
  {
    if visit == [] then []
    else
      var n := |visit| - 1;
      var last := visit[n];
      assert last in ToSet(visit) && visit == visit[..n] + [last];
      assert ToSet(visit[..n]) <= ToSet(visit);
      Batch(visit[..n], coordinates, courierToOrders, now)
      + CourierBatch(last, courierToOrders[last], coordinates[last], now)
  }

  lemma BatchAppend(
    visit: seq<Id>, c: Id, coordinates: map<Id, Coordinates>, courierToOrders: map<Id, seq<Id>>, now: Time)
    requires ToSet(visit + [c]) <= coordinates.Keys && ToSet(visit + [c]) <= courierToOrders.Keys
    ensures ToSet(visit) <= coordinates.Keys && ToSet(visit) <= courierToOrders.Keys
    ensures c in coordinates && c in courierToOrders
    ensures Batch(visit + [c], coordinates, courierToOrders, now)
      == Batch(visit, coordinates, courierToOrders, now) + CourierBatch(c, courierToOrders[c], coordinates[c], now)
  {
  }

  /** The batch of a cycle lists exactly the answered orders with what their couriers answered. */
  lemma {:induction false} BatchOfCycle(
    s: Store, ext: External, ids: set<Id>, now: Time, orderToCourier: map<Id, Id>,
    courierToOrders: map<Id, seq<Id>>, visit: seq<Id>, coordinates: map<Id, Coordinates>)
    requires forall id :: id in orderToCourier <==> id in ids && Resolve(s, ext, id, now).Some?
    requires forall id :: id in orderToCourier ==> Resolve(s, ext, id, now) == Some(orderToCourier[id])
    requires courierToOrders.Keys == orderToCourier.Values
    requires forall c, id :: c in courierToOrders ==>
      (id in courierToOrders[c] <==> id in orderToCourier && orderToCourier[id] == c)
    requires coordinates == map c | c in ext.positions && c in courierToOrders :: ext.positions[c]
    requires ToSet(visit) == coordinates.Keys
    ensures forall l :: l in Batch(visit, coordinates, courierToOrders, now) <==>
      l.orderId in Answered(s, ext, ids, now) && l == Fix(l.orderId, Resolve(s, ext, l.orderId, now).value, ext, now)
  {
    forall l: CourierLocation
      ensures l in Batch(visit, coordinates, courierToOrders, now) <==>
        l.orderId in Answered(s, ext, ids, now) && l == Fix(l.orderId, Resolve(s, ext, l.orderId, now).value, ext, now)
    {
      var batch := Batch(visit, coordinates, courierToOrders, now);
      assert l.courierId in visit <==> l.courierId in coordinates.Keys;
      assert l in batch <==>
        l.courierId in coordinates && l.orderId in orderToCourier && orderToCourier[l.orderId] == l.courierId
        && l == CourierLocation(l.orderId, l.courierId, coordinates[l.courierId], now);
      assert l.orderId in orderToCourier ==> orderToCourier[l.orderId] in courierToOrders.Keys;
    }
  }

  /** Orders grouped by courier, keeping the listed order and repeats. */
  function Grouped(orders: seq<Order>): (groups: map<Id, seq<Id>>)
    ensures forall c :: c in groups <==> exists o :: o in orders && o.courierId == c
    ensures forall c, id :: c in groups ==> (id in groups[c] <==> Order(id, c) in orders)
  {
    if orders == [] then map[]
    else
      var last := orders[|orders| - 1];
      var groups := Grouped(orders[..|orders| - 1]);
      assert orders == orders[..|orders| - 1] + [last];
      groups[last.courierId := (if last.courierId in groups then groups[last.courierId] else []) + [last.id]]
  }

  /** What the couriers of the pre-warmed orders answer. */
  function Answers(ext: External, orders: seq<Order>): map<Id, Coordinates> {
    map c | c in ext.positions && c in Grouped(orders) :: ext.positions[c]
  }

  /** PreWarmCache as a state change, for one order `visit` of walking the answers. */
  function PreWarmed(s: Store, ext: External, cfg: Config, orders: seq<Order>, visit: seq<Id>, now: Time): Store
    requires ToSet(visit) == Answers(ext, orders).Keys
  {
    s.PreWarm(orders, cfg.heartbeatTtl, cfg.mappingTtl, now)
     .SetLocations(Batch(visit, Answers(ext, orders), Grouped(orders), now), cfg.locationTtl, now)
  }

  function Restrict<V>(m: map<Id, V>, ids: seq<Id>): map<Id, V> {
    map id | id in m && id in ids :: m[id]
  }

  /** The poller; the call logs record the requests it sends out, in order. */
  class PollerService {
    const cacheRepo: MemoryCacheRepository
    const cfg: Config
    var orderCalls: seq<Id>
    var courierCalls: seq<Id>

    constructor (cacheRepo: MemoryCacheRepository, cfg: Config)
      ensures this.cacheRepo == cacheRepo && this.cfg == cfg
      ensures orderCalls == [] && courierCalls == []
    {
      this.cacheRepo := cacheRepo;
      this.cfg := cfg;
      orderCalls, courierCalls := [], [];
    }

    method GetOrderByID(id: Id, ext: External) returns (courierId: Option<Id>)
      modifies this`orderCalls
      ensures orderCalls == old(orderCalls) + [id]
      ensures courierId == if id in ext.orders then Some(ext.orders[id]) else None
    {
      orderCalls := orderCalls + [id];
      return if id in ext.orders then Some(ext.orders[id]) else None;
    }

    method GetCourierLocation(courierId: Id, ext: External) returns (coordinates: Option<Coordinates>)
      modifies this`courierCalls
      ensures courierCalls == old(courierCalls) + [courierId]
      ensures coordinates == if courierId in ext.positions then Some(ext.positions[courierId]) else None
    {
      courierCalls := courierCalls + [courierId];
      return if courierId in ext.positions then Some(ext.positions[courierId]) else None;
    }

    /** One execution of SyncOrder; `ok` is the absence of an error. */
    method SyncOrder(id: Id, ext: External, now: Time) returns (ok: bool)
      modifies this`orderCalls, this`courierCalls, cacheRepo
      ensures cacheRepo.State() == SyncOne(old(cacheRepo.State()), ext, cfg, id, now)
      ensures ok <==> id in Answered(old(cacheRepo.State()), ext, {id}, now)
      ensures orderCalls == old(orderCalls) + if Read(old(cacheRepo.courierMaps), id, now).None? then [id] else []
      ensures courierCalls == old(courierCalls)
        + match Resolve(old(cacheRepo.State()), ext, id, now) case Some(courierId) => [courierId] case None => []
    {
      var courierId := cacheRepo.GetOrderCourierMapping(id, now);
      if courierId.None? {
        courierId := GetOrderByID(id, ext);
        if courierId.None? {
          return false;
        }
        cacheRepo.SetOrderCourierMapping(id, courierId.value, cfg.mappingTtl, now);
      }
      var coordinates := GetCourierLocation(courierId.value, ext);
      if coordinates.None? {
        return false;
      }
      cacheRepo.SetOrderLocation(CourierLocation(id, courierId.value, coordinates.value, now), cfg.locationTtl, now);
      return true;
    }

    method FetchMissingOrderCouriers(orderIds: seq<Id>, ext: External) returns (results: map<Id, Id>)
      modifies this`orderCalls
      ensures orderCalls == old(orderCalls) + orderIds
      ensures results == Restrict(ext.orders, orderIds)
    {
      results := map[];
      for i := 0 to |orderIds|
        invariant orderCalls == old(orderCalls) + orderIds[..i]
        invariant results == Restrict(ext.orders, orderIds[..i])
      {
        assert orderIds[..i + 1] == orderIds[..i] + [orderIds[i]];
        var courierId := GetOrderByID(orderIds[i], ext);
        if courierId.Some? {
          results := results[orderIds[i] := courierId.value];
        }
      }
      assert orderIds[..|orderIds|] == orderIds;
    }

    method FetchCourierCoordinates(courierIds: seq<Id>, ext: External) returns (results: map<Id, Coordinates>)
      modifies this`courierCalls
      ensures courierCalls == old(courierCalls) + courierIds
      ensures results == Restrict(ext.positions, courierIds)
    {
      results := map[];
      for i := 0 to |courierIds|
        invariant courierCalls == old(courierCalls) + courierIds[..i]
        invariant results == Restrict(ext.positions, courierIds[..i])
      {
        assert courierIds[..i + 1] == courierIds[..i] + [courierIds[i]];
        var coordinates := GetCourierLocation(courierIds[i], ext);
        if coordinates.Some? {
          results := results[courierIds[i] := coordinates.value];
        }
      }
      assert courierIds[..|courierIds|] == courierIds;
    }

    /** Step 3, first half: what the cache already knows, and the orders it does not know. */
    method ReadMappings(orderIds: seq<Id>, now: Time) returns (known: map<Id, Id>, missing: seq<Id>)
      requires NoDuplicates(orderIds)
      ensures var cached := cacheRepo.courierMaps;
        && (forall id :: id in known <==> id in orderIds && Read(cached, id, now).Some?)
        && (forall id :: id in known ==> Read(cached, id, now) == Some(known[id]))
        && (forall id: Id :: id in missing <==> id in orderIds && Read(cached, id, now).None?)
      ensures NoDuplicates(missing)
    {
      known, missing := map[], [];
      for i := 0 to |orderIds|
        invariant forall id :: id in known <==> id in orderIds[..i] && Read(cacheRepo.courierMaps, id, now).Some?
        invariant forall id :: id in known ==> Read(cacheRepo.courierMaps, id, now) == Some(known[id])
        invariant forall id: Id :: id in missing <==> id in orderIds[..i] && Read(cacheRepo.courierMaps, id, now).None?
        invariant NoDuplicates(missing)
      {
        var courierId := cacheRepo.GetOrderCourierMapping(orderIds[i], now);
        assert orderIds[i] !in orderIds[..i];
        if courierId.Some? {
          known := known[orderIds[i] := courierId.value];
        } else {
          missing := missing + [orderIds[i]];
        }
      }
    }

    /** Step 3, second half: remember every newly resolved courier, in whatever order the map is walked. */
    method CacheMappings(resolved: map<Id, Id>, now: Time)
      modifies cacheRepo
      ensures var s := old(cacheRepo.State());
        cacheRepo.State() == s.(courierMaps := map id | id in s.courierMaps.Keys + resolved.Keys ::
          if id in resolved then Item(resolved[id], Expiry(now, cfg.mappingTtl)) else s.courierMaps[id])
    {
      ghost var s := cacheRepo.State();
      var rest := resolved.Keys;
      while rest != {}
        invariant rest <= resolved.Keys
        invariant cacheRepo.State() == s.(courierMaps := map id | id in s.courierMaps.Keys + (resolved.Keys - rest) ::
          if id in resolved.Keys - rest then Item(resolved[id], Expiry(now, cfg.mappingTtl)) else s.courierMaps[id])
        decreases rest
      {
        var id :| id in rest;
        rest := rest - {id};
        cacheRepo.SetOrderCourierMapping(id, resolved[id], cfg.mappingTtl, now);
      }
    }

    /** Step 3 of the cycle: mappings from the cache, the missing ones from Order Service and then cached. */
    method ResolveCouriers(orderIds: seq<Id>, ext: External, now: Time) returns (orderToCourier: map<Id, Id>)
      requires NoDuplicates(orderIds)
      modifies this`orderCalls, cacheRepo
      ensures var s := old(cacheRepo.State());
        && cacheRepo.State() == s.(courierMaps := MappingsAfter(s, ext, cfg, ToSet(orderIds), now))
        && (forall id :: id in orderToCourier <==> id in orderIds && Resolve(s, ext, id, now).Some?)
        && (forall id :: id in orderToCourier ==> Resolve(s, ext, id, now) == Some(orderToCourier[id]))
      ensures old(orderCalls) <= orderCalls && NoDuplicates(Since(orderCalls, old(orderCalls)))
      ensures forall id: Id :: id in Since(orderCalls, old(orderCalls)) <==>
        id in orderIds && Read(old(cacheRepo.State()).courierMaps, id, now).None?
    {
      ghost var s := cacheRepo.State();
      var known, missing := ReadMappings(orderIds, now);
      orderToCourier := known;
      if |missing| > 0 {
        var resolved := FetchMissingOrderCouriers(missing, ext);
        orderToCourier := known + resolved;
        CacheMappings(resolved, now);
        assert resolved.Keys == Unmapped(s, ext, ToSet(orderIds), now);
      } else {
        assert Unmapped(s, ext, ToSet(orderIds), now) == {};
      }
      assert cacheRepo.courierMaps == MappingsAfter(s, ext, cfg, ToSet(orderIds), now);
      assert Since(orderCalls, old(orderCalls)) == missing;
    }

    /** Step 4: each courier with its orders. */
    method GroupByCourier(orderToCourier: map<Id, Id>) returns (courierToOrders: map<Id, seq<Id>>)
      ensures courierToOrders.Keys == orderToCourier.Values
      ensures forall c, id :: c in courierToOrders ==>
        (id in courierToOrders[c] <==> id in orderToCourier && orderToCourier[id] == c)
      ensures forall c :: c in courierToOrders ==> NoDuplicates(courierToOrders[c])
    {
      courierToOrders := map[];
      var rest := orderToCourier.Keys;
      while rest != {}
        invariant rest <= orderToCourier.Keys
        invariant forall c :: c in courierToOrders <==> exists id :: id in orderToCourier.Keys - rest && orderToCourier[id] == c
        invariant forall c, id :: c in courierToOrders ==>
          (id in courierToOrders[c] <==> id in orderToCourier.Keys - rest && orderToCourier[id] == c)
        invariant forall c :: c in courierToOrders ==> NoDuplicates(courierToOrders[c])
        decreases rest
      {
        var id :| id in rest;
        ghost var done := orderToCourier.Keys - rest;
        rest := rest - {id};
        assert orderToCourier.Keys - rest == done + {id};
        var c := orderToCourier[id];
        assert c in courierToOrders ==> id !in courierToOrders[c];
        courierToOrders := courierToOrders[c := (if c in courierToOrders then courierToOrders[c] else []) + [id]];
      }
      assert orderToCourier.Keys - rest == orderToCourier.Keys;
    }

    method KeysOf(courierToOrders: map<Id, seq<Id>>) returns (couriers: seq<Id>)
      ensures NoDuplicates(couriers) && ToSet(couriers) == courierToOrders.Keys
    {
      couriers := [];
      var rest := courierToOrders.Keys;
      while rest != {}
        invariant rest <= courierToOrders.Keys
        invariant ToSet(couriers) == courierToOrders.Keys - rest && NoDuplicates(couriers)
        decreases rest
      {
        var c :| c in rest;
        rest := rest - {c};
        assert c !in ToSet(couriers);
        ToSetAppend(couriers, c);
        couriers := couriers + [c];
      }
    }

    method BuildCourierLocations(courierId: Id, orderIds: seq<Id>, coordinates: Coordinates, now: Time)
      returns (locations: seq<CourierLocation>)
      ensures locations == CourierBatch(courierId, orderIds, coordinates, now)
    {
      locations := [];
      for i := 0 to |orderIds|
        invariant locations == CourierBatch(courierId, orderIds[..i], coordinates, now)
      {
        assert orderIds[..i + 1][..i] == orderIds[..i];
        locations := locations + [CourierLocation(orderIds[i], courierId, coordinates, now)];
      }
      assert orderIds[..|orderIds|] == orderIds;
    }

    /** Step 6: fan the coordinates out to the orders; `visit` is the order in which the map was walked. */
    method BuildLocations(coordinates: map<Id, Coordinates>, courierToOrders: map<Id, seq<Id>>, now: Time)
      returns (locations: seq<CourierLocation>, ghost visit: seq<Id>)
      requires coordinates.Keys <= courierToOrders.Keys
      ensures NoDuplicates(visit) && ToSet(visit) == coordinates.Keys
      ensures locations == Batch(visit, coordinates, courierToOrders, now)
    {
      locations := [];
      visit := [];
      var rest := coordinates.Keys;
      while rest != {}
        invariant rest <= coordinates.Keys
        invariant NoDuplicates(visit) && ToSet(visit) == coordinates.Keys - rest
        invariant locations == Batch(visit, coordinates, courierToOrders, now)
        decreases rest
      {
        var c :| c in rest;
        rest := rest - {c};
        assert c !in ToSet(visit);
        ToSetAppend(visit, c);
        BatchAppend(visit, c, coordinates, courierToOrders, now);
        var part := BuildCourierLocations(c, courierToOrders[c], coordinates[c], now);
        locations := locations + part;
        visit := visit + [c];
      }
    }

    /** Steps 4 to 7: ask each courier of a resolved order once and store all answers in one batch. */
    method SyncResolved(orderToCourier: map<Id, Id>, ext: External, now: Time, ghost s: Store, ghost ids: set<Id>)
      requires s.locations == cacheRepo.locations
      requires forall id :: id in orderToCourier <==> id in ids && Resolve(s, ext, id, now).Some?
      requires forall id :: id in orderToCourier ==> Resolve(s, ext, id, now) == Some(orderToCourier[id])
      modifies this`courierCalls, cacheRepo
      ensures cacheRepo.State() == old(cacheRepo.State()).(locations := LocationsAfter(s, ext, cfg, ids, now))
      ensures old(courierCalls) <= courierCalls && NoDuplicates(Since(courierCalls, old(courierCalls)))
      ensures ToSet(Since(courierCalls, old(courierCalls))) == orderToCourier.Values
    {
      var courierToOrders := GroupByCourier(orderToCourier);
      var uniqueCouriers := KeysOf(courierToOrders);
      var coordinates := FetchCourierCoordinates(uniqueCouriers, ext);
      assert Since(courierCalls, old(courierCalls)) == uniqueCouriers;
      var locations, visit := BuildLocations(coordinates, courierToOrders, now);
      RestrictToKeys(ext.positions, uniqueCouriers, courierToOrders.Keys);
      BatchOfCycle(s, ext, ids, now, orderToCourier, courierToOrders, visit, coordinates);
      BatchIsLocationsAfter(s, ext, cfg, ids, locations, now);
      cacheRepo.SetOrderLocationsBatch(locations, cfg.locationTtl, now);
    }

    /** Steps 3 to 7 for a non-empty listing of the tracked orders. */
    method SyncListed(orderIds: seq<Id>, ext: External, now: Time)
      requires NoDuplicates(orderIds)
      modifies this`orderCalls, this`courierCalls, cacheRepo
      ensures cacheRepo.State() == SyncSet(old(cacheRepo.State()), ext, cfg, ToSet(orderIds), now)
      ensures old(courierCalls) <= courierCalls && NoDuplicates(Since(courierCalls, old(courierCalls)))
      ensures old(orderCalls) <= orderCalls && NoDuplicates(Since(orderCalls, old(orderCalls)))
      ensures ToSet(Since(courierCalls, old(courierCalls)))
        == ResolvedCouriers(old(cacheRepo.State()), ext, ToSet(orderIds), now)
      ensures forall id: Id :: id in Since(orderCalls, old(orderCalls)) <==>
        id in orderIds && Read(old(cacheRepo.State()).courierMaps, id, now).None?
    {
      ghost var s := cacheRepo.State();
      ghost var ids := ToSet(orderIds);
      var orderToCourier := ResolveCouriers(orderIds, ext, now);
      CouriersAreValues(s, ext, ids, now, orderToCourier);
      if |orderToCourier| == 0 {
        assert Answered(s, ext, ids, now) == {};
        assert LocationsAfter(s, ext, cfg, ids, now) == s.locations;
        return;
      }
      SyncResolved(orderToCourier, ext, now, s, ids);
    }

    method GroupOrders(orders: seq<Order>) returns (courierToOrders: map<Id, seq<Id>>)
      ensures courierToOrders == Grouped(orders)
    {
      courierToOrders := map[];
      for i := 0 to |orders|
        invariant courierToOrders == Grouped(orders[..i])
      {
        assert orders[..i + 1][..i] == orders[..i];
        var c := orders[i].courierId;
        courierToOrders := courierToOrders[c := (if c in courierToOrders then courierToOrders[c] else []) + [orders[i].id]];
      }
      assert orders[..|orders|] == orders;
    }

    /** Start-up: register and map all orders, ask each courier once, store all answers. */
    method PreWarmCache(orders: seq<Order>, ext: External, now: Time) returns (ghost visit: seq<Id>)
      modifies this`courierCalls, cacheRepo
      ensures ToSet(visit) == Answers(ext, orders).Keys && NoDuplicates(visit)
      ensures cacheRepo.State() == PreWarmed(old(cacheRepo.State()), ext, cfg, orders, visit, now)
      ensures old(courierCalls) <= courierCalls && NoDuplicates(Since(courierCalls, old(courierCalls)))
      ensures ToSet(Since(courierCalls, old(courierCalls))) == Grouped(orders).Keys
    {
      if |orders| == 0 {
        visit := [];
        return;
      }
      cacheRepo.PreWarmOrders(orders, cfg.heartbeatTtl, cfg.mappingTtl, now);
      var courierToOrders := GroupOrders(orders);
      var uniqueCouriers := KeysOf(courierToOrders);
      var coordinates := FetchCourierCoordinates(uniqueCouriers, ext);
      assert Since(courierCalls, old(courierCalls)) == uniqueCouriers;
      RestrictToKeys(ext.positions, uniqueCouriers, courierToOrders.Keys);
      assert coordinates == Answers(ext, orders);
      var locations, walked := BuildLocations(coordinates, courierToOrders, now);
      visit := walked;
      if |locations| > 0 {
        cacheRepo.SetOrderLocationsBatch(locations, cfg.locationTtl, now);
      }
    }

    /**
     The batch cycle refines the naive loop: whatever orders the maps are walked in, it leaves
     what purging and then running SyncOrder over the tracked orders, listed in any order,
     would leave, and it asks each resolved courier exactly once.
     */
    method SyncActiveOrders(ext: External, now: Time)
      modifies this`orderCalls, this`courierCalls, cacheRepo
      ensures forall ids: seq<Id> :: ToSet(ids) == old(cacheRepo.State()).Purge(now).activeOrders.Keys ==>
        cacheRepo.State() == SyncEach(old(cacheRepo.State()).Purge(now), ext, cfg, ids, now).(lastSync := now)
      ensures old(courierCalls) <= courierCalls && NoDuplicates(Since(courierCalls, old(courierCalls)))
      ensures old(orderCalls) <= orderCalls && NoDuplicates(Since(orderCalls, old(orderCalls)))
      ensures var s := old(cacheRepo.State()).Purge(now);
        && ToSet(Since(courierCalls, old(courierCalls))) == ResolvedCouriers(s, ext, s.activeOrders.Keys, now)
        && forall id: Id :: id in Since(orderCalls, old(orderCalls)) <==>
             id in s.activeOrders && Read(s.courierMaps, id, now).None?
    {
      cacheRepo.RemoveInactiveOrders(now);
      ghost var s := cacheRepo.State();
      var orderIds := cacheRepo.GetActiveOrderIDs();
      assert ToSet(orderIds) == s.activeOrders.Keys;
      EveryListing(s, ext, cfg, s.activeOrders.Keys, now);
      if |orderIds| == 0 {
        cacheRepo.SetLastSync(now);
        NothingToSync(s, ext, cfg, s.activeOrders.Keys, now);
        return;
      }
      SyncListed(orderIds, ext, now);
      cacheRepo.SetLastSync(now);
    }
  }

  lemma RestrictToKeys<V>(m: map<Id, V>, ids: seq<Id>, keys: set<Id>)
    requires ToSet(ids) == keys
    ensures Restrict(m, ids) == map c | c in m && c in keys :: m[c]
  {
  }

  lemma CouriersAreValues(s: Store, ext: External, ids: set<Id>, now: Time, orderToCourier: map<Id, Id>)
    requires forall id :: id in orderToCourier <==> id in ids && Resolve(s, ext, id, now).Some?
    requires forall id :: id in orderToCourier ==> Resolve(s, ext, id, now) == Some(orderToCourier[id])
    ensures ResolvedCouriers(s, ext, ids, now) == orderToCourier.Values
  {
  }

  lemma EveryListing(s: Store, ext: External, cfg: Config, ids: set<Id>, now: Time)
    ensures forall listing: seq<Id> :: ToSet(listing) == ids ==>
      SyncEach(s, ext, cfg, listing, now) == SyncSet(s, ext, cfg, ids, now)
  {
    forall listing: seq<Id> | ToSet(listing) == ids
      ensures SyncEach(s, ext, cfg, listing, now) == SyncSet(s, ext, cfg, ids, now)
    {
      SyncEachIsSyncSet(s, ext, cfg, listing, now);
    }
  }

  lemma NothingToSync(s: Store, ext: External, cfg: Config, ids: set<Id>, now: Time)
    requires ids == {}
    ensures SyncSet(s, ext, cfg, ids, now) == s
  {
  }
}
