/**
 The read and sync paths together, over any history of whole calls on the in-memory cache:
 which orders are tracked, and why a watched order keeps hitting.
 */
module TrackingWindow {
  import opened Domain
  import opened MemoryCache
  import P = PollerService
  import W = PreWarm
  import L = LocationService

  datatype Event =
    | Request(id: Id)
    | Cycle(ext: P.External)                       // SyncActiveOrders
    | UrgentSync(id: Id, ext: P.External)          // SyncOrder
    | PreWarm(orders: seq<Order>, ext: P.External, visit: seq<Id>)

  predicate ValidEntry(e: Dated<Event>) {
    e.event.PreWarm? ==> P.ToSet(e.event.visit) == P.Answers(e.event.ext, e.event.orders).Keys
  }

  function Step(s: Store, e: Dated<Event>, cfg: P.Config): Store
    requires ValidEntry(e)
  {
    match e.event
    case Request(id) => L.Request(s, id, cfg.heartbeatTtl, e.at).0
    case Cycle(ext) =>
      var purged := s.Purge(e.at);
      P.SyncSet(purged, ext, cfg, purged.activeOrders.Keys, e.at).(lastSync := e.at)
    case UrgentSync(id, ext) => P.SyncOne(s, ext, cfg, id, e.at)
    case PreWarm(orders, ext, visit) => P.PreWarmed(s, ext, cfg, orders, visit, e.at)
  }

  /** Positive TTLs, and a clock that starts after the zero time and never runs back. */
  predicate ValidConfig(cfg: P.Config) {
    cfg.heartbeatTtl > 0 && cfg.locationTtl > 0 && cfg.mappingTtl > 0
  }

  predicate ValidHistory(h: seq<Dated<Event>>) {
    && (forall e :: e in h ==> e.at > 0 && ValidEntry(e))
    && forall i, j :: 0 <= i <= j < |h| ==> h[i].at <= h[j].at
  }

  function After(h: seq<Dated<Event>>, cfg: P.Config): Store
    requires ValidHistory(h)
  {
    if h == [] then EMPTY_STORE
    else Step(After(h[..|h| - 1], cfg), h[|h| - 1], cfg)
  }

  /** A request with a valid id, or a pre-warm, shows interest in the order. */
  predicate Touches(e: Dated<Event>, id: Id) {
    (e.event.Request? && e.event.id == id && id > 0)
    || (e.event.PreWarm? && id in OrderIds(e.event.orders))
  }

  /** Some interest was shown no longer than the heartbeat TTL ago. */
  ghost predicate InWindow(h: seq<Dated<Event>>, id: Id, now: Time, heartbeatTtl: Time) {
    exists i :: 0 <= i < |h| && Touches(h[i], id) && now <= h[i].at + heartbeatTtl
  }

  predicate TouchedAt(h: seq<Dated<Event>>, i: int, id: Id) {
    0 <= i < |h| && Touches(h[i], id)
  }

  lemma StepHeartbeats(s: Store, e: Dated<Event>, cfg: P.Config, id: Id)
    requires ValidEntry(e) && ValidConfig(cfg)
    ensures var s' := Step(s, e, cfg);
      if Touches(e, id) then id in s'.activeOrders && s'.activeOrders[id] == e.at + cfg.heartbeatTtl
      else
        && (id in s'.activeOrders <==> id in s.activeOrders && (e.event.Cycle? ==> e.at <= s.activeOrders[id]))
        && (id in s'.activeOrders ==> s'.activeOrders[id] == s.activeOrders[id])
  {
    if e.event.PreWarm? {
      TouchedHeartbeats(s.activeOrders, e.event.orders, Expiry(e.at, cfg.heartbeatTtl));
    }
  }

  /** A tracked order's heartbeat comes from an interest shown; an interest shown is tracked until it is too old. */
  lemma {:induction false} HeartbeatOrigin(h: seq<Dated<Event>>, cfg: P.Config, id: Id)
    requires ValidHistory(h) && ValidConfig(cfg)
    ensures id in After(h, cfg).activeOrders ==>
      exists i :: TouchedAt(h, i, id) && After(h, cfg).activeOrders[id] == h[i].at + cfg.heartbeatTtl
    ensures forall i :: TouchedAt(h, i, id) ==>
      (id in After(h, cfg).activeOrders && After(h, cfg).activeOrders[id] >= h[i].at + cfg.heartbeatTtl)
      || h[|h| - 1].at > h[i].at + cfg.heartbeatTtl
  {
    if h != [] {
      var n := |h| - 1;
      var before := h[..n];
      HeartbeatOrigin(before, cfg, id);
      StepHeartbeats(After(before, cfg), h[n], cfg, id);
      if id in After(h, cfg).activeOrders {
        if Touches(h[n], id) {
          assert TouchedAt(h, n, id);
        } else {
          var i :| TouchedAt(before, i, id) && After(before, cfg).activeOrders[id] == before[i].at + cfg.heartbeatTtl;
          assert TouchedAt(h, i, id);
        }
      }
      forall i | TouchedAt(h, i, id)
        ensures (id in After(h, cfg).activeOrders && After(h, cfg).activeOrders[id] >= h[i].at + cfg.heartbeatTtl)
          || h[n].at > h[i].at + cfg.heartbeatTtl
      {
        if i < n {
          assert TouchedAt(before, i, id);
          assert before[i] == h[i] && before[n - 1].at <= h[n].at;
        }
      }
    }
  }

  /**
   The sliding window: after a purge at any time from the end of a history on, the tracked
   orders are exactly those in which interest was shown within the heartbeat TTL.
   */
  lemma {:induction false} TrackedIsWindow(h: seq<Dated<Event>>, cfg: P.Config, now: Time)
    requires ValidHistory(h) && ValidConfig(cfg) && (h != [] ==> h[|h| - 1].at <= now)
    ensures forall id: Id :: id in After(h, cfg).Purge(now).activeOrders <==> InWindow(h, id, now, cfg.heartbeatTtl)
  {
    forall id: Id
      ensures id in After(h, cfg).Purge(now).activeOrders <==> InWindow(h, id, now, cfg.heartbeatTtl)
    {
      HeartbeatOrigin(h, cfg, id);
      if id in After(h, cfg).Purge(now).activeOrders {
        var i :| TouchedAt(h, i, id) && After(h, cfg).activeOrders[id] == h[i].at + cfg.heartbeatTtl;
      }
      if InWindow(h, id, now, cfg.heartbeatTtl) {
        var i :| 0 <= i < |h| && Touches(h[i], id) && now <= h[i].at + cfg.heartbeatTtl;
        assert TouchedAt(h, i, id);
      }
    }
  }

  /** The location of `id` stays readable until `until`, whatever is written at `at` or later. */
  predicate HoldsUntil(s: Store, id: Id, until: Time) {
    id in s.locations && s.locations[id].expiresAt >= until
  }

  lemma {:induction false} BatchExpiry(m: map<Id, Item<CourierLocation>>, batch: seq<CourierLocation>, expiresAt: Time, id: Id)
    ensures id in m ==> id in PutLocations(m, batch, expiresAt)
    ensures id in PutLocations(m, batch, expiresAt) ==>
      PutLocations(m, batch, expiresAt)[id].expiresAt == expiresAt
      || (id in m && PutLocations(m, batch, expiresAt)[id] == m[id])
  {
    if batch != [] {
      BatchExpiry(m, batch[..|batch| - 1], expiresAt, id);
    }
  }

  lemma StepHolds(s: Store, e: Dated<Event>, cfg: P.Config, id: Id, until: Time)
    requires ValidEntry(e) && ValidConfig(cfg) && HoldsUntil(s, id, until) && until <= e.at + cfg.locationTtl
    ensures HoldsUntil(Step(s, e, cfg), id, until)
  {
    if e.event.PreWarm? {
      var batch := P.Batch(e.event.visit, P.Answers(e.event.ext, e.event.orders), P.Grouped(e.event.orders), e.at);
      BatchExpiry(s.locations, batch, Expiry(e.at, cfg.locationTtl), id);
    }
  }

  lemma {:induction false} HoldsLater(h: seq<Dated<Event>>, cfg: P.Config, id: Id, j: nat, n: nat, until: Time)
    requires ValidHistory(h) && ValidConfig(cfg) && j < n <= |h|
    requires HoldsUntil(After(h[..j + 1], cfg), id, until) && until <= h[j].at + cfg.locationTtl
    ensures HoldsUntil(After(h[..n], cfg), id, until)
    decreases n
  {
    if j + 1 < n {
      HoldsLater(h, cfg, id, j, n - 1, until);
      assert h[..n][..n - 1] == h[..n - 1];
      StepHolds(After(h[..n - 1], cfg), h[n - 1], cfg, id, until);
    }
  }

  /** Entry j is a cycle in which the order resolves to a courier that answers. */
  predicate Succeeds(h: seq<Dated<Event>>, cfg: P.Config, j: int, id: Id)
    requires ValidHistory(h)
  {
    && 0 <= j < |h| && h[j].event.Cycle?
    && id in P.Answered(After(h[..j], cfg).Purge(h[j].at), h[j].event.ext, {id}, h[j].at)
  }

  predicate RequestedAt(h: seq<Dated<Event>>, i: int, id: Id) {
    0 <= i < |h| && h[i].event == Request(id)
  }

  /** Positions in the history, in order, whose times are at most `gap` apart. */
  predicate Spaced(h: seq<Dated<Event>>, marks: seq<nat>, gap: Time) {
    && (forall k :: 0 <= k < |marks| ==> marks[k] < |h|)
    && forall k :: 0 < k < |marks| ==> marks[k - 1] < marks[k] && h[marks[k]].at <= h[marks[k - 1]].at + gap
  }

  /** The last mark not after position m. */
  lemma {:induction false} LastMark(h: seq<Dated<Event>>, marks: seq<nat>, gap: Time, m: nat) returns (k: nat)
    requires Spaced(h, marks, gap) && marks != [] && marks[0] <= m
    ensures k < |marks| && marks[k] <= m && (k + 1 == |marks| || m < marks[k + 1])
    decreases |marks|
  {
    var n := |marks| - 1;
    if marks[n] <= m {
      k := n;
    } else {
      k := LastMark(h, marks[..n], gap, m);
    }
  }

  lemma {:induction false} MarksAscend(h: seq<Dated<Event>>, marks: seq<nat>, gap: Time, i: nat, k: nat)
    requires Spaced(h, marks, gap) && i <= k < |marks|
    ensures marks[i] <= marks[k]
    decreases k
  {
    if i < k {
      MarksAscend(h, marks, gap, i, k - 1);
    }
  }

  /** A cycle that succeeds for an order requested within the heartbeat TTL stores its location. */
  lemma SuccessStores(h: seq<Dated<Event>>, cfg: P.Config, id: Id, i: nat, j: nat)
    requires ValidHistory(h) && ValidConfig(cfg) && i < j < |h|
    requires RequestedAt(h, i, id) && id > 0 && h[j].at <= h[i].at + cfg.heartbeatTtl
    requires Succeeds(h, cfg, j, id)
    ensures HoldsUntil(After(h[..j + 1], cfg), id, h[j].at + cfg.locationTtl)
  {
    var before := h[..j];
    assert before[i] == h[i];
    TrackedIsWindow(before, cfg, h[j].at);
    assert InWindow(before, id, h[j].at, cfg.heartbeatTtl);
    var purged := After(before, cfg).Purge(h[j].at);
    assert id in P.Answered(purged, h[j].event.ext, purged.activeOrders.Keys, h[j].at);
    assert h[..j + 1][..j] == before;
  }

  lemma NotARequest(h: seq<Dated<Event>>, cfg: P.Config, id: Id, j: int, i: int)
    requires ValidHistory(h) && Succeeds(h, cfg, j, id) && RequestedAt(h, i, id)
    ensures i != j
  {
  }

  lemma HitWhileHeld(s: Store, id: Id, until: Time, heartbeatTtl: Time, now: Time)
    requires HoldsUntil(s, id, until) && now <= until && id > 0
    ensures L.Request(s, id, heartbeatTtl, now).1.Hit?
  {
  }

  lemma HitAfterSuccess(h: seq<Dated<Event>>, cfg: P.Config, id: Id, i: nat, j: nat, n: nat)
    requires ValidHistory(h) && ValidConfig(cfg) && id > 0 && i <= j <= n < |h|
    requires RequestedAt(h, i, id) && Succeeds(h, cfg, j, id) && RequestedAt(h, n, id)
    requires h[j].at <= h[i].at + cfg.heartbeatTtl && h[n].at <= h[j].at + cfg.locationTtl
    ensures L.Request(After(h[..n], cfg), id, cfg.heartbeatTtl, h[n].at).1.Hit?
  {
    NotARequest(h, cfg, id, j, i);
    NotARequest(h, cfg, id, j, n);
    SuccessStores(h, cfg, id, i, j);
    HoldsLater(h, cfg, id, j, n, h[j].at + cfg.locationTtl);
    HitWhileHeld(After(h[..n], cfg), id, h[j].at + cfg.locationTtl, cfg.heartbeatTtl, h[n].at);
  }

  /**
   A watched order never misses: take any of its requests, at most the heartbeat TTL apart, and
   any cycles that succeed for it, at most the location TTL apart and going on until at most
   that long before the request in question; then every one of these requests after the first
   of these cycles is a hit.
   */
  lemma {:induction false} WatchedOrderHits(
    h: seq<Dated<Event>>, cfg: P.Config, id: Id, requests: seq<nat>, cycles: seq<nat>, k: nat)
    requires ValidHistory(h) && ValidConfig(cfg) && id > 0
    requires Spaced(h, requests, cfg.heartbeatTtl) && forall r :: r in requests ==> RequestedAt(h, r, id)
    requires Spaced(h, cycles, cfg.locationTtl) && forall c :: c in cycles ==> Succeeds(h, cfg, c, id)
    requires k < |requests| && cycles != [] && requests[0] < cycles[0] < requests[k]
    requires h[requests[k]].at <= h[cycles[|cycles| - 1]].at + cfg.locationTtl
    ensures L.Request(After(h[..requests[k]], cfg), id, cfg.heartbeatTtl, h[requests[k]].at).1.Hit?
  {
    var n := requests[k];
    var c := LastMark(h, cycles, cfg.locationTtl, n);
    var j := cycles[c];
    NotARequest(h, cfg, id, j, n);
    MarksAscend(h, cycles, cfg.locationTtl, 0, c);
    var r := LastMark(h, requests, cfg.heartbeatTtl, j);
    if k <= r {
      MarksAscend(h, requests, cfg.heartbeatTtl, k, r);
    }
    HitAfterSuccess(h, cfg, id, requests[r], j, n);
  }

  /** The mapping of `id` stays readable until `until`, whatever is written at `at` or later. */
  predicate MapsUntil(s: Store, id: Id, until: Time) {
    id in s.courierMaps && s.courierMaps[id].expiresAt >= until
  }

  lemma StepMaps(s: Store, e: Dated<Event>, cfg: P.Config, id: Id, until: Time)
    requires ValidEntry(e) && ValidConfig(cfg) && MapsUntil(s, id, until) && until <= e.at + cfg.mappingTtl
    ensures MapsUntil(Step(s, e, cfg), id, until)
  {
    if e.event.PreWarm? {
      W.MappingsWritten(s.courierMaps, e.event.orders, Expiry(e.at, cfg.mappingTtl));
    }
  }

  lemma {:induction false} MapsLater(h: seq<Dated<Event>>, cfg: P.Config, id: Id, j: nat, n: nat)
    requires ValidHistory(h) && ValidConfig(cfg) && j < n <= |h|
    requires h[j].event.PreWarm? && id in OrderIds(h[j].event.orders)
    ensures MapsUntil(After(h[..n], cfg), id, h[j].at + cfg.mappingTtl)
    decreases n
  {
    assert h[..n][..n - 1] == h[..n - 1];
    if j + 1 == n {
      W.MappingsWritten(After(h[..j], cfg).courierMaps, h[j].event.orders, Expiry(h[j].at, cfg.mappingTtl));
    } else {
      MapsLater(h, cfg, id, j, n - 1);
      StepMaps(After(h[..n - 1], cfg), h[n - 1], cfg, id, h[j].at + cfg.mappingTtl);
    }
  }

  /**
   Whatever happens after a pre-warm, a cycle within one mapping TTL of it finds the mapping of
   every pre-warmed order in the cache, so it does not ask Order Service for any of them.
   */
  lemma {:induction false} PreWarmedNeedNoOrderService(h: seq<Dated<Event>>, cfg: P.Config, id: Id, j: nat, n: nat)
    requires ValidHistory(h) && ValidConfig(cfg) && j < n < |h|
    requires h[j].event.PreWarm? && id in OrderIds(h[j].event.orders)
    requires h[n].event.Cycle? && h[n].at <= h[j].at + cfg.mappingTtl
    ensures var s := After(h[..n], cfg).Purge(h[n].at);
      Read(s.courierMaps, id, h[n].at).Some? && id !in P.Unmapped(s, h[n].event.ext, s.activeOrders.Keys, h[n].at)
  {
    MapsLater(h, cfg, id, j, n);
  }

  // ---------- What a hit shows ----------

  function Positions(event: Event): map<Id, Coordinates> {
    match event
    case Request(_) => map[]
    case Cycle(ext) => ext.positions
    case UrgentSync(_, ext) => ext.positions
    case PreWarm(_, ext, _) => ext.positions
  }

  /** The event, met by this cache, writes the order's location with this courier's answer. */
  predicate Writes(s: Store, e: Dated<Event>, id: Id, courierId: Id) {
    && courierId in Positions(e.event)
    && match e.event
       case Request(_) => false
       case Cycle(ext) =>
         id in s.activeOrders && e.at <= s.activeOrders[id] && P.Resolve(s, ext, id, e.at) == Some(courierId)
       case UrgentSync(other, ext) => other == id && P.Resolve(s, ext, id, e.at) == Some(courierId)
       case PreWarm(orders, _, _) => Order(id, courierId) in orders
  }

  /** The event stores exactly this location for the order. */
  predicate Stores(s: Store, e: Dated<Event>, id: Id, l: CourierLocation) {
    && Writes(s, e, id, l.courierId)
    && l.orderId == id && l.coordinates == Positions(e.event)[l.courierId] && l.updatedAt == e.at
  }

  ghost predicate Rewrites(s: Store, e: Dated<Event>, id: Id) {
    exists c :: Writes(s, e, id, c)
  }

  /** A batch leaves each order one of its entries for it, and other orders alone. */
  lemma {:induction false} BatchLeaves(m: map<Id, Item<CourierLocation>>, batch: seq<CourierLocation>, expiresAt: Time, id: Id)
    ensures var m' := PutLocations(m, batch, expiresAt);
      if id in P.BatchIds(batch) then
        id in m' && m'[id].expiresAt == expiresAt && m'[id].value in batch && m'[id].value.orderId == id
      else (id in m' <==> id in m) && (id in m ==> m'[id] == m[id])
  {
    if batch != [] {
      var n := |batch| - 1;
      BatchLeaves(m, batch[..n], expiresAt, id);
      assert batch == batch[..n] + [batch[n]];
      assert P.BatchIds(batch) == P.BatchIds(batch[..n]) + {batch[n].orderId};
    }
  }

  /** What one event leaves as the order's location. */
  ghost predicate LeavesLocation(s: Store, e: Dated<Event>, s': Store, cfg: P.Config, id: Id) {
    if Rewrites(s, e, id) then
      && id in s'.locations && Stores(s, e, id, s'.locations[id].value)
      && s'.locations[id].expiresAt == e.at + cfg.locationTtl
    else (id in s'.locations <==> id in s.locations) && (id in s.locations ==> s'.locations[id] == s.locations[id])
  }

  lemma {:induction false} PreWarmLeaves(s: Store, e: Dated<Event>, cfg: P.Config, id: Id)
    requires ValidEntry(e) && ValidConfig(cfg) && e.event.PreWarm?
    ensures LeavesLocation(s, e, Step(s, e, cfg), cfg, id)
  {
    var orders, ext, visit := e.event.orders, e.event.ext, e.event.visit;
    var batch := P.Batch(visit, P.Answers(ext, orders), P.Grouped(orders), e.at);
    W.BatchContents(ext, orders, visit, e.at);
    BatchLeaves(s.locations, batch, Expiry(e.at, cfg.locationTtl), id);
    forall c | Writes(s, e, id, c)
      ensures id in P.BatchIds(batch)
    {
      assert P.Fix(id, c, ext, e.at) in batch;
    }
    if l :| l in batch && l.orderId == id {
      assert Writes(s, e, id, l.courierId);
    }
  }

  lemma {:induction false} CycleLeaves(s: Store, e: Dated<Event>, cfg: P.Config, id: Id)
    requires ValidConfig(cfg) && e.event.Cycle?
    ensures LeavesLocation(s, e, Step(s, e, cfg), cfg, id)
  {
    var resolved := P.Resolve(s, e.event.ext, id, e.at);
    assert resolved.Some? ==> (Rewrites(s, e, id) <==> Writes(s, e, id, resolved.value));
  }

  lemma {:induction false} UrgentSyncLeaves(s: Store, e: Dated<Event>, cfg: P.Config, id: Id)
    requires ValidConfig(cfg) && e.event.UrgentSync?
    ensures LeavesLocation(s, e, Step(s, e, cfg), cfg, id)
  {
    var resolved := P.Resolve(s, e.event.ext, id, e.at);
    assert resolved.Some? ==> (Rewrites(s, e, id) <==> Writes(s, e, id, resolved.value));
  }

  lemma {:induction false} StepLeaves(s: Store, e: Dated<Event>, cfg: P.Config, id: Id)
    requires ValidEntry(e) && ValidConfig(cfg)
    ensures LeavesLocation(s, e, Step(s, e, cfg), cfg, id)
  {
    match e.event
    case Request(_) =>
    case PreWarm(_, _, _) => PreWarmLeaves(s, e, cfg, id);
    case Cycle(_) => CycleLeaves(s, e, cfg, id);
    case UrgentSync(_, _) => UrgentSyncLeaves(s, e, cfg, id);
  }

  ghost predicate StoredAt(h: seq<Dated<Event>>, cfg: P.Config, j: int, id: Id, l: CourierLocation)
    requires ValidHistory(h)
  {
    0 <= j < |h| && Stores(After(h[..j], cfg), h[j], id, l)
  }

  ghost predicate RewrittenAt(h: seq<Dated<Event>>, cfg: P.Config, j: int, id: Id)
    requires ValidHistory(h)
  {
    0 <= j < |h| && Rewrites(After(h[..j], cfg), h[j], id)
  }

  /** Event j stored this location, and nothing stored another for the order since. */
  ghost predicate LastStoredAt(h: seq<Dated<Event>>, cfg: P.Config, j: int, id: Id, l: CourierLocation)
    requires ValidHistory(h)
  {
    StoredAt(h, cfg, j, id, l) && forall k :: j < k < |h| ==> !RewrittenAt(h, cfg, k, id)
  }

  /** The cached location is the last one stored, and lives one location TTL from then. */
  ghost predicate IsLastStored(h: seq<Dated<Event>>, cfg: P.Config, id: Id, item: Item<CourierLocation>)
    requires ValidHistory(h)
  {
    exists j :: LastStoredAt(h, cfg, j, id, item.value) && item.expiresAt == h[j].at + cfg.locationTtl
  }

  lemma {:induction false} RewrittenInPrefix(h: seq<Dated<Event>>, cfg: P.Config, j: int, id: Id)
    requires ValidHistory(h) && h != [] && j < |h| - 1
    ensures RewrittenAt(h[..|h| - 1], cfg, j, id) <==> RewrittenAt(h, cfg, j, id)
  {
    if 0 <= j {
      assert h[..|h| - 1][..j] == h[..j];
    }
  }

  lemma {:induction false} LastStoredLater(h: seq<Dated<Event>>, cfg: P.Config, j: int, id: Id, l: CourierLocation)
    requires ValidHistory(h) && h != [] && LastStoredAt(h[..|h| - 1], cfg, j, id, l)
    requires !RewrittenAt(h, cfg, |h| - 1, id)
    ensures LastStoredAt(h, cfg, j, id, l) && h[..|h| - 1][j] == h[j]
  {
    var n := |h| - 1;
    assert h[..n][..j] == h[..j];
    forall k | j < k < n
      ensures !RewrittenAt(h, cfg, k, id)
    {
      RewrittenInPrefix(h, cfg, k, id);
    }
  }

  lemma {:induction false} LastStoredStays(h: seq<Dated<Event>>, cfg: P.Config, id: Id, item: Item<CourierLocation>)
    requires ValidHistory(h) && h != [] && IsLastStored(h[..|h| - 1], cfg, id, item)
    requires !RewrittenAt(h, cfg, |h| - 1, id)
    ensures IsLastStored(h, cfg, id, item)
  {
    var before := h[..|h| - 1];
    var j :| LastStoredAt(before, cfg, j, id, item.value) && item.expiresAt == before[j].at + cfg.locationTtl;
    LastStoredLater(h, cfg, j, id, item.value);
  }

  /** What the last event of a history leaves as the order's location. */
  lemma {:induction false} LastLeaves(h: seq<Dated<Event>>, cfg: P.Config, id: Id)
    requires ValidHistory(h) && ValidConfig(cfg) && h != []
    ensures var n, before, after := |h| - 1, After(h[..|h| - 1], cfg).locations, After(h, cfg).locations;
      if RewrittenAt(h, cfg, n, id) then
        id in after && LastStoredAt(h, cfg, n, id, after[id].value) && after[id].expiresAt == h[n].at + cfg.locationTtl
      else (id in after <==> id in before) && (id in before ==> after[id] == before[id])
  {
    StepLeaves(After(h[..|h| - 1], cfg), h[|h| - 1], cfg, id);
  }

  lemma {:induction false} OnceWrittenIsThere(h: seq<Dated<Event>>, cfg: P.Config, id: Id, j: int)
    requires ValidHistory(h) && ValidConfig(cfg) && RewrittenAt(h, cfg, j, id)
    ensures id in After(h, cfg).locations
    decreases |h|
  {
    LastLeaves(h, cfg, id);
    if j < |h| - 1 {
      RewrittenInPrefix(h, cfg, j, id);
      OnceWrittenIsThere(h[..|h| - 1], cfg, id, j);
    }
  }

  lemma {:induction false} LocationOrigin(h: seq<Dated<Event>>, cfg: P.Config, id: Id)
    requires ValidHistory(h) && ValidConfig(cfg) && id in After(h, cfg).locations
    ensures IsLastStored(h, cfg, id, After(h, cfg).locations[id])
    decreases |h|
  {
    LastLeaves(h, cfg, id);
    if !RewrittenAt(h, cfg, |h| - 1, id) {
      LocationOrigin(h[..|h| - 1], cfg, id);
      LastStoredStays(h, cfg, id, After(h, cfg).locations[id]);
    }
  }

  /**
   What a request gets: a hit if and only if some cycle, urgent sync or pre-warm wrote the order's
   location within the location TTL; and then exactly what the last one stored: for this order,
   of the courier it resolved to, with the coordinates that courier answered, and of that time.
   */
  lemma {:induction false} HitShowsTheLastStored(h: seq<Dated<Event>>, cfg: P.Config, id: Id, now: Time)
    requires ValidHistory(h) && ValidConfig(cfg) && id > 0 && (h != [] ==> h[|h| - 1].at <= now)
    ensures var r := L.Request(After(h, cfg), id, cfg.heartbeatTtl, now).1;
      && (r.Hit? || r.Miss?)
      && (r.Hit? <==> exists j :: RewrittenAt(h, cfg, j, id) && now <= h[j].at + cfg.locationTtl)
      && (r.Hit? ==> exists j :: LastStoredAt(h, cfg, j, id, r.location) && now <= h[j].at + cfg.locationTtl)
  {
    var s := After(h, cfg);
    forall j | RewrittenAt(h, cfg, j, id)
      ensures id in s.locations
    {
      OnceWrittenIsThere(h, cfg, id, j);
    }
    if id in s.locations {
      LocationOrigin(h, cfg, id);
      var i :| LastStoredAt(h, cfg, i, id, s.locations[id].value) && s.locations[id].expiresAt == h[i].at + cfg.locationTtl;
      assert RewrittenAt(h, cfg, i, id);
      forall j | RewrittenAt(h, cfg, j, id)
        ensures h[j].at <= h[i].at
      {
        assert j <= i;
      }
    }
  }

  /** The cycle of a history is the naive loop over the tracked orders in any listing, and sets lastSync. */
  lemma CycleIsSyncEach(s: Store, e: Dated<Event>, cfg: P.Config, listing: seq<Id>)
    requires ValidEntry(e) && e.event.Cycle? && P.ToSet(listing) == s.Purge(e.at).activeOrders.Keys
    ensures Step(s, e, cfg) == P.SyncEach(s.Purge(e.at), e.event.ext, cfg, listing, e.at).(lastSync := e.at)
  {
    P.SyncEachIsSyncSet(s.Purge(e.at), e.event.ext, cfg, listing, e.at);
  }
}
