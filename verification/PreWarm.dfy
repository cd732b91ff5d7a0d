/** When the start-up pre-warm is the same as registering the orders and syncing them one by one. */
module PreWarm {
  import opened Domain
  import opened MemoryCache
  import opened PollerService

  /** The courier of the last entry for `id`. */
  function LastCourier(orders: seq<Order>, id: Id): Id
    requires id in OrderIds(orders)
    decreases |orders|
  {
    var last := orders[|orders| - 1];
    if last.id == id then last.courierId
    else
      assert orders == orders[..|orders| - 1] + [last];
      LastCourier(orders[..|orders| - 1], id)
  }

  function IdsOf(orders: seq<Order>): seq<Id> {
    seq(|orders|, i requires 0 <= i < |orders| => orders[i].id)
  }

  /** The naive start-up: register and map everything, then SyncOrder for each order. */
  function PreWarmThenSyncEach(s: Store, ext: External, cfg: Config, orders: seq<Order>, now: Time): Store {
    SyncEach(s.PreWarm(orders, cfg.heartbeatTtl, cfg.mappingTtl, now), ext, cfg, IdsOf(orders), now)
  }

  /** Every listed courier that answers is the last one listed for its order. */
  predicate Consistent(ext: External, orders: seq<Order>) {
    forall o :: o in orders && o.courierId in ext.positions ==> o.courierId == LastCourier(orders, o.id)
  }

  lemma {:induction false} MappingsWritten(m: map<Id, Item<Id>>, orders: seq<Order>, expiresAt: Time)
    ensures PutMappings(m, orders, expiresAt).Keys == m.Keys + OrderIds(orders)
    ensures forall id :: id in OrderIds(orders) ==>
      PutMappings(m, orders, expiresAt)[id] == Item(LastCourier(orders, id), expiresAt)
    ensures forall id :: id in m && id !in OrderIds(orders) ==> PutMappings(m, orders, expiresAt)[id] == m[id]
  {
    if orders != [] {
      var n := |orders| - 1;
      MappingsWritten(m, orders[..n], expiresAt);
      assert orders == orders[..n] + [orders[n]];
      assert OrderIds(orders) == OrderIds(orders[..n]) + {orders[n].id};
    }
  }

  lemma {:induction false} LastCourierListed(orders: seq<Order>, id: Id)
    requires id in OrderIds(orders)
    ensures Order(id, LastCourier(orders, id)) in orders
    decreases |orders|
  {
    var n := |orders| - 1;
    assert orders == orders[..n] + [orders[n]];
    if orders[n].id != id {
      LastCourierListed(orders[..n], id);
    }
  }

  /** Right after pre-warming, and until the mapping TTL runs out, Order Service is not needed for these orders. */
  lemma {:induction false} MappedUntilExpiry(s: Store, cfg: Config, orders: seq<Order>, id: Id, now: Time, later: Time)
    requires id in OrderIds(orders) && now <= later
    ensures var read := Read(s.PreWarm(orders, cfg.heartbeatTtl, cfg.mappingTtl, now).courierMaps, id, later);
      && (cfg.mappingTtl <= 0 || later <= now + cfg.mappingTtl ==> read == Some(LastCourier(orders, id)))
      && (cfg.mappingTtl > 0 && later > now + cfg.mappingTtl && now > 0 ==> read == None)
  {
    MappingsWritten(s.courierMaps, orders, Expiry(now, cfg.mappingTtl));
  }

  /** The naive start-up, order by order. */
  lemma NaiveLocations(s: Store, ext: External, cfg: Config, orders: seq<Order>, now: Time)
    ensures var s1 := s.PreWarm(orders, cfg.heartbeatTtl, cfg.mappingTtl, now);
      && PreWarmThenSyncEach(s, ext, cfg, orders, now) == s1.(locations := LocationsAfter(s1, ext, cfg, OrderIds(orders), now))
      && forall id :: id in OrderIds(orders) ==> Resolve(s1, ext, id, now) == Some(LastCourier(orders, id))
  {
    var s1 := s.PreWarm(orders, cfg.heartbeatTtl, cfg.mappingTtl, now);
    SyncEachIsSyncSet(s1, ext, cfg, IdsOf(orders), now);
    assert ToSet(IdsOf(orders)) == OrderIds(orders) by {
      forall id
        ensures id in ToSet(IdsOf(orders)) <==> id in OrderIds(orders)
      {
        if id in OrderIds(orders) {
          var i :| 0 <= i < |orders| && orders[i].id == id;
          assert IdsOf(orders)[i] == id;
        }
      }
    }
    forall id | id in OrderIds(orders)
      ensures Read(s1.courierMaps, id, now) == Some(LastCourier(orders, id))
    {
      MappedUntilExpiry(s, cfg, orders, id, now, now);
    }
    assert MappingsAfter(s1, ext, cfg, OrderIds(orders), now) == s1.courierMaps;
  }

  lemma {:induction false} BatchContents(ext: External, orders: seq<Order>, visit: seq<Id>, now: Time)
    requires ToSet(visit) == Answers(ext, orders).Keys
    ensures forall l :: l in Batch(visit, Answers(ext, orders), Grouped(orders), now) <==>
      Order(l.orderId, l.courierId) in orders && l.courierId in ext.positions && l == Fix(l.orderId, l.courierId, ext, now)
  {
    forall l: CourierLocation
      ensures l in Batch(visit, Answers(ext, orders), Grouped(orders), now) <==>
        Order(l.orderId, l.courierId) in orders && l.courierId in ext.positions && l == Fix(l.orderId, l.courierId, ext, now)
    {
      assert l.courierId in visit <==> l.courierId in ToSet(visit);
    }
  }

  lemma ConsistentAgrees(s: Store, ext: External, cfg: Config, orders: seq<Order>, visit: seq<Id>, now: Time)
    requires ToSet(visit) == Answers(ext, orders).Keys && Consistent(ext, orders)
    ensures PreWarmed(s, ext, cfg, orders, visit, now) == PreWarmThenSyncEach(s, ext, cfg, orders, now)
  {
    var s1 := s.PreWarm(orders, cfg.heartbeatTtl, cfg.mappingTtl, now);
    var batch := Batch(visit, Answers(ext, orders), Grouped(orders), now);
    NaiveLocations(s, ext, cfg, orders, now);
    BatchContents(ext, orders, visit, now);
    forall l: CourierLocation
      ensures l in batch <==>
        l.orderId in Answered(s1, ext, OrderIds(orders), now) && l == Fix(l.orderId, Resolve(s1, ext, l.orderId, now).value, ext, now)
    {
      if l in batch {
        assert Order(l.orderId, l.courierId) in orders;
      }
      if l.orderId in OrderIds(orders) {
        LastCourierListed(orders, l.orderId);
      }
    }
    BatchIsLocationsAfter(s1, ext, cfg, OrderIds(orders), batch, now);
  }

  lemma {:induction false} SomeListing(ids: set<Id>) returns (listing: seq<Id>)
    ensures ToSet(listing) == ids
  {
    if ids == {} {
      listing := [];
    } else {
      var id :| id in ids;
      var rest := SomeListing(ids - {id});
      ToSetAppend(rest, id);
      listing := rest + [id];
    }
  }

  lemma {:induction false} LastWriteWins(
    m: map<Id, Item<CourierLocation>>, batch: seq<CourierLocation>, tail: seq<CourierLocation>, l: CourierLocation,
    expiresAt: Time)
    requires l in tail && forall other :: other in tail && other.orderId == l.orderId ==> other == l
    ensures l.orderId in PutLocations(m, batch + tail, expiresAt)
    ensures PutLocations(m, batch + tail, expiresAt)[l.orderId] == Item(l, expiresAt)
  {
    var n := |tail| - 1;
    assert (batch + tail)[..|batch| + n] == batch + tail[..n];
    assert (batch + tail)[|batch| + n] == tail[n];
    if tail[n] != l {
      assert tail == tail[..n] + [tail[n]];
      LastWriteWins(m, batch, tail[..n], l, expiresAt);
    }
  }

  /**
   An order listed under two couriers can end up with either, depending on how a map is walked:
   pre-warming can leave it the answer of any listed courier, syncing leaves it that of its last
   one, or what the cache had.
   */
  lemma {:induction false} InconsistentDiffers(s: Store, ext: External, cfg: Config, orders: seq<Order>, o: Order, now: Time)
    returns (visit: seq<Id>)
    requires o in orders && o.courierId in ext.positions && o.courierId != LastCourier(orders, o.id)
    ensures ToSet(visit) == Answers(ext, orders).Keys
    ensures Fixed(PreWarmed(s, ext, cfg, orders, visit, now), o.id, o.courierId, ext, cfg, now)
    ensures var last, synced := LastCourier(orders, o.id), PreWarmThenSyncEach(s, ext, cfg, orders, now);
      if last in ext.positions then Fixed(synced, o.id, last, ext, cfg, now)
      else Unchanged(s, synced, o.id)
  {
    var c := o.courierId;
    var others := SomeListing(Answers(ext, orders).Keys - {c});
    visit := others + [c];
    ToSetAppend(others, c);
    assert ToSet(visit) == Answers(ext, orders).Keys;
    BatchAppend(others, c, Answers(ext, orders), Grouped(orders), now);
    var tail := CourierBatch(c, Grouped(orders)[c], ext.positions[c], now);
    var l := Fix(o.id, c, ext, now);
    assert l in tail;
    LastWriteWins(s.locations, Batch(others, Answers(ext, orders), Grouped(orders), now), tail, l, Expiry(now, cfg.locationTtl));
    NaiveLocations(s, ext, cfg, orders, now);
  }

  /** The order's location is what this courier answered now. */
  predicate Fixed(s: Store, id: Id, courierId: Id, ext: External, cfg: Config, now: Time)
    requires courierId in ext.positions
  {
    id in s.locations && s.locations[id] == Item(Fix(id, courierId, ext, now), Expiry(now, cfg.locationTtl))
  }

  predicate Unchanged(s: Store, s': Store, id: Id) {
    if id in s.locations then id in s'.locations && s'.locations[id] == s.locations[id] else id !in s'.locations
  }

  /**
   Pre-warming equals registering and then syncing order by order, from every cache state and
   for every order of walking the answers, if and only if no order is listed with an answering
   courier other than its last one. Orders with distinct ids always qualify.
   */
  lemma PreWarmAgreesIff(ext: External, cfg: Config, orders: seq<Order>, now: Time)
    ensures Consistent(ext, orders) <==>
      forall s: Store, visit: seq<Id> :: ToSet(visit) == Answers(ext, orders).Keys ==>
        PreWarmed(s, ext, cfg, orders, visit, now) == PreWarmThenSyncEach(s, ext, cfg, orders, now)
  {
    if Consistent(ext, orders) {
      forall s: Store, visit: seq<Id> | ToSet(visit) == Answers(ext, orders).Keys
        ensures PreWarmed(s, ext, cfg, orders, visit, now) == PreWarmThenSyncEach(s, ext, cfg, orders, now)
      {
        ConsistentAgrees(s, ext, cfg, orders, visit, now);
      }
    } else {
      var o :| o in orders && o.courierId in ext.positions && o.courierId != LastCourier(orders, o.id);
      var visit := InconsistentDiffers(EMPTY_STORE, ext, cfg, orders, o, now);
    }
  }

  lemma DistinctIsConsistent(ext: External, orders: seq<Order>)
    requires forall i, j :: 0 <= i < j < |orders| ==> orders[i].id != orders[j].id
    ensures Consistent(ext, orders)
  {
    forall o | o in orders
      ensures o.courierId == LastCourier(orders, o.id)
    {
      assert o.id in OrderIds(orders);
      LastCourierListed(orders, o.id);
    }
  }
}
