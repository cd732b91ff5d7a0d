/**
 Requests, location writes, pre-warms and clean-ups on the Redis cache, as whole calls in any
 order: tracking is never wider than the window, and an order lost from it is picked up again.
 */
module RedisTracking {
  import opened Domain
  import opened Keys
  import R = Redis
  import RC = RedisCache
  import M = MemoryCache
  import CS = CacheSimulation
  import L = LocationService

  datatype Event =
    | Request(id: Id)
    | PutLocation(location: CourierLocation)
    | PutMapping(id: Id, courierId: Id)
    | PreWarm(orders: seq<Order>)
    | CleanUp

  datatype Ttls = Ttls(heartbeat: Time, location: Time, mapping: Time)

  /** A hit only writes the heartbeat key; a miss registers the order again. */
  function AfterRequest(ks: R.Keyspace, id: Id, heartbeatTtl: Time, now: Time): (R.Keyspace, Option<L.Response>) {
    if id <= 0 then (ks, Some(L.InvalidOrderId))
    else
      match RC.LocationAt(ks, id, now)
      case Failed => (ks, None)
      case Ok(Some(location)) => (RC.Beat(ks, id, heartbeatTtl, now), Some(L.Hit(location)))
      case Ok(None) => (RC.Register(ks, id, heartbeatTtl, now), Some(L.Miss))
  }

  function Step(ks: R.Keyspace, e: Dated<Event>, ttls: Ttls): R.Keyspace {
    match e.event
    case Request(id) => AfterRequest(ks, id, ttls.heartbeat, e.at).0
    case PutLocation(location) => RC.SetLocation(ks, location, ttls.location, e.at)
    case PutMapping(id, courierId) => RC.SetMapping(ks, id, courierId, ttls.mapping, e.at)
    case PreWarm(orders) => RC.PreWarm(ks, orders, ttls.heartbeat, ttls.mapping, e.at)
    case CleanUp => RC.RemoveInactive(ks, e.at)
  }

  function After(h: seq<Dated<Event>>, ttls: Ttls): R.Keyspace {
    if h == [] then map[] else Step(After(h[..|h| - 1], ttls), h[|h| - 1], ttls)
  }

  predicate Positive(ttls: Ttls) {
    ttls.heartbeat > 0 && ttls.location > 0 && ttls.mapping > 0
  }

  /** Some listed order has this id. */
  predicate Lists(orders: seq<Order>, id: Id) {
    orders != [] && (orders[|orders| - 1].id == id || Lists(orders[..|orders| - 1], id))
  }

  /** A request with a valid id, or a pre-warm, shows interest in the order. */
  predicate Touches(e: Dated<Event>, id: Id) {
    match e.event
    case Request(other) => other == id && id > 0
    case PreWarm(orders) => Lists(orders, id)
    case _ => false
  }

  predicate Puts(e: Dated<Event>, id: Id) {
    e.event.PutLocation? && e.event.location.orderId == id
  }

  predicate TouchedAt(h: seq<Dated<Event>>, i: int, id: Id) {
    0 <= i < |h| && Touches(h[i], id)
  }

  predicate PutAt(h: seq<Dated<Event>>, i: int, id: Id) {
    0 <= i < |h| && Puts(h[i], id)
  }

  function At(ks: R.Keyspace, k: Key): Option<R.Entry> {
    if Render(k) in ks then Some(ks[Render(k)]) else None
  }

  predicate LocationOf(h: seq<Dated<Event>>, i: int, e: R.Entry, ttls: Ttls, id: Id) {
    PutAt(h, i, id) && e == R.Entry(R.Json(h[i].event.location), Some(h[i].at + ttls.location))
  }

  predicate HeartbeatOf(h: seq<Dated<Event>>, i: int, e: R.Entry, ttls: Ttls, id: Id) {
    TouchedAt(h, i, id) && e.deadline == Some(h[i].at + ttls.heartbeat)
  }

  /** A stored location is the one of a past write, and dies one location TTL after it. */
  ghost predicate LocationOrigin(h: seq<Dated<Event>>, e: Option<R.Entry>, ttls: Ttls, id: Id) {
    e.Some? ==> exists i :: LocationOf(h, i, e.value, ttls, id)
  }

  /** A stored heartbeat dates from an interest shown. */
  ghost predicate HeartbeatOrigin(h: seq<Dated<Event>>, e: Option<R.Entry>, ttls: Ttls, id: Id) {
    e.Some? ==> exists i :: HeartbeatOf(h, i, e.value, ttls, id)
  }

  /** The tracking key holds a set of printed ids, without a deadline. */
  ghost predicate TrackingSet(e: Option<R.Entry>) {
    e.Some? ==>
      e.value.value.Members? && e.value.deadline.None? && forall m :: m in e.value.value.members ==> ParseInt(m).Some?
  }

  /** A location key holds a location. */
  predicate Decodable(e: Option<R.Entry>) {
    e.Some? ==> e.value.value.Json?
  }

  lemma SetEffect(ks: R.Keyspace, k: Key, e: R.Entry, other: Key)
    ensures At(ks[Render(k) := e], other) == if other == k then Some(e) else At(ks, other)
    ensures other != k ==> At(ks - {Render(k)}, other) == At(ks, other)
  {
    if Render(k) == Render(other) {
      RenderInjective(k, other);
    }
  }

  lemma JoinEffect(ks: R.Keyspace, id: Id, now: Time, k: Key)
    requires TrackingSet(At(ks, ActiveOrders))
    ensures var ks' := R.SAdd(ks, Render(ActiveOrders), FormatInt(id), now);
      && TrackingSet(At(ks', ActiveOrders))
      && RC.Tracked(ks', now) == RC.Tracked(ks, now) + {FormatInt(id)}
      && (k != ActiveOrders ==> At(ks', k) == At(ks, k))
  {
    ParseInverse(id);
    var ks' := R.SAdd(ks, Render(ActiveOrders), FormatInt(id), now);
    SetEffect(ks, ActiveOrders, ks'[Render(ActiveOrders)], k);
  }

  /** What the commands of a registration do to any one key. */
  lemma RegisterEffect(ks: R.Keyspace, id: Id, ttl: Time, now: Time, k: Key)
    requires ttl > 0 && TrackingSet(At(ks, ActiveOrders))
    ensures var ks' := RC.Register(ks, id, ttl, now);
      && TrackingSet(At(ks', ActiveOrders))
      && RC.Tracked(ks', now) == RC.Tracked(ks, now) + {FormatInt(id)}
      && At(ks', Heartbeat(id)) == Some(R.Entry(R.Text("1"), Some(now + ttl)))
      && (k != ActiveOrders && k != Heartbeat(id) ==> At(ks', k) == At(ks, k))
  {
    JoinEffect(ks, id, now, k);
    var joined := R.SAdd(ks, Render(ActiveOrders), FormatInt(id), now);
    SetEffect(joined, Heartbeat(id), R.Entry(R.Text("1"), Some(now + ttl)), k);
    SetEffect(joined, Heartbeat(id), R.Entry(R.Text("1"), Some(now + ttl)), ActiveOrders);
  }

  lemma PreWarmOneEffect(ks: R.Keyspace, o: Order, ttls: Ttls, now: Time, k: Key)
    requires Positive(ttls) && TrackingSet(At(ks, ActiveOrders))
    ensures var ks' := RC.SetMapping(RC.Register(ks, o.id, ttls.heartbeat, now), o.id, o.courierId, ttls.mapping, now);
      && TrackingSet(At(ks', ActiveOrders))
      && (k.Location? ==> At(ks', k) == At(ks, k))
      && (k.Heartbeat? ==>
            At(ks', k) == if k.id == o.id then Some(R.Entry(R.Text("1"), Some(now + ttls.heartbeat))) else At(ks, k))
  {
    RegisterEffect(ks, o.id, ttls.heartbeat, now, k);
    var e := R.Entry(R.Text(FormatInt(o.courierId)), Some(now + ttls.mapping));
    SetEffect(RC.Register(ks, o.id, ttls.heartbeat, now), Courier(o.id), e, k);
    SetEffect(RC.Register(ks, o.id, ttls.heartbeat, now), Courier(o.id), e, ActiveOrders);
  }

  lemma {:induction false} PreWarmEffect(ks: R.Keyspace, orders: seq<Order>, ttls: Ttls, now: Time, k: Key)
    requires Positive(ttls) && TrackingSet(At(ks, ActiveOrders))
    ensures var ks' := RC.PreWarm(ks, orders, ttls.heartbeat, ttls.mapping, now);
      && TrackingSet(At(ks', ActiveOrders))
      && (k.Location? ==> At(ks', k) == At(ks, k))
      && (k.Heartbeat? ==>
            At(ks', k) == if Lists(orders, k.id) then Some(R.Entry(R.Text("1"), Some(now + ttls.heartbeat))) else At(ks, k))
  {
    if orders != [] {
      var n := |orders| - 1;
      PreWarmEffect(ks, orders[..n], ttls, now, k);
      PreWarmOneEffect(RC.PreWarm(ks, orders[..n], ttls.heartbeat, ttls.mapping, now), orders[n], ttls, now, k);
    }
  }

  lemma CleanUpEffect(ks: R.Keyspace, now: Time, k: Key)
    requires TrackingSet(At(ks, ActiveOrders))
    ensures var ks' := RC.RemoveInactive(ks, now);
      && TrackingSet(At(ks', ActiveOrders))
      && (k != ActiveOrders ==> At(ks', k) == At(ks, k))
      && RC.Tracked(ks', now) == RC.Tracked(ks, now) - RC.DeadMembers(ks, RC.Tracked(ks, now), now)
  {
    if At(ks, ActiveOrders).Some? {
      var e := ks[Render(ActiveOrders)];
      var dead := RC.DeadMembers(ks, e.value.members, now);
      SetEffect(ks, ActiveOrders, R.Entry(R.Members(e.value.members - dead), None), k);
    }
  }

  lemma RequestHeartbeat(ks: R.Keyspace, other: Id, ttl: Time, now: Time, id: Id)
    requires ttl > 0 && TrackingSet(At(ks, ActiveOrders)) && Decodable(At(ks, Location(id)))
    ensures At(AfterRequest(ks, other, ttl, now).0, Heartbeat(id)) ==
      if other == id && id > 0 then Some(R.Entry(R.Text("1"), Some(now + ttl))) else At(ks, Heartbeat(id))
  {
    RegisterEffect(ks, other, ttl, now, Heartbeat(id));
    SetEffect(ks, Heartbeat(other), R.Entry(R.Text("1"), Some(now + ttl)), Heartbeat(id));
  }

  lemma StepKeepsTrackingSet(ks: R.Keyspace, e: Dated<Event>, ttls: Ttls)
    requires Positive(ttls) && TrackingSet(At(ks, ActiveOrders))
    ensures TrackingSet(At(Step(ks, e, ttls), ActiveOrders))
  {
    match e.event
    case Request(id) =>
      RegisterEffect(ks, id, ttls.heartbeat, e.at, ActiveOrders);
      SetEffect(ks, Heartbeat(id), R.Entry(R.Text("1"), Some(e.at + ttls.heartbeat)), ActiveOrders);
    case PutLocation(location) =>
      SetEffect(ks, Location(location.orderId), R.Entry(R.Json(location), Some(e.at + ttls.location)), ActiveOrders);
    case PutMapping(id, courierId) =>
      SetEffect(ks, Courier(id), R.Entry(R.Text(FormatInt(courierId)), Some(e.at + ttls.mapping)), ActiveOrders);
    case PreWarm(orders) => PreWarmEffect(ks, orders, ttls, e.at, ActiveOrders);
    case CleanUp => CleanUpEffect(ks, e.at, ActiveOrders);
  }

  /** Only a location write changes a location key. */
  lemma StepLocation(ks: R.Keyspace, e: Dated<Event>, ttls: Ttls, id: Id)
    requires Positive(ttls) && TrackingSet(At(ks, ActiveOrders))
    ensures At(Step(ks, e, ttls), Location(id)) ==
      if Puts(e, id) then Some(R.Entry(R.Json(e.event.location), Some(e.at + ttls.location)))
      else At(ks, Location(id))
  {
    match e.event
    case Request(other) =>
      RegisterEffect(ks, other, ttls.heartbeat, e.at, Location(id));
      SetEffect(ks, Heartbeat(other), R.Entry(R.Text("1"), Some(e.at + ttls.heartbeat)), Location(id));
    case PutLocation(location) =>
      SetEffect(ks, Location(location.orderId), R.Entry(R.Json(location), Some(e.at + ttls.location)), Location(id));
    case PutMapping(other, courierId) =>
      SetEffect(ks, Courier(other), R.Entry(R.Text(FormatInt(courierId)), Some(e.at + ttls.mapping)), Location(id));
    case PreWarm(orders) => PreWarmEffect(ks, orders, ttls, e.at, Location(id));
    case CleanUp => CleanUpEffect(ks, e.at, Location(id));
  }

  /** A mapping write is readable until exactly its TTL has passed. */
  lemma MappingReadsBack(ks: R.Keyspace, e: Dated<Event>, ttls: Ttls, later: Time)
    requires Positive(ttls) && e.event.PutMapping? && e.at <= later
    ensures RC.MappingAt(Step(ks, e, ttls), e.event.id, later)
      == RC.Ok(Only(later <= e.at + ttls.mapping, e.event.courierId))
  {
    ParseInverse(e.event.courierId);
  }

  lemma PlainHeartbeat(ks: R.Keyspace, e: Dated<Event>, ttls: Ttls, id: Id)
    requires Positive(ttls) && TrackingSet(At(ks, ActiveOrders))
    requires e.event.PutLocation? || e.event.PutMapping? || e.event.CleanUp?
    ensures At(Step(ks, e, ttls), Heartbeat(id)) == At(ks, Heartbeat(id))
  {
    match e.event
    case PutLocation(location) =>
      SetEffect(ks, Location(location.orderId), R.Entry(R.Json(location), Some(e.at + ttls.location)), Heartbeat(id));
    case PutMapping(other, courierId) =>
      SetEffect(ks, Courier(other), R.Entry(R.Text(FormatInt(courierId)), Some(e.at + ttls.mapping)), Heartbeat(id));
    case CleanUp => CleanUpEffect(ks, e.at, Heartbeat(id));
  }

  lemma {:induction false} PreWarmHeartbeat(ks: R.Keyspace, e: Dated<Event>, ttls: Ttls, id: Id)
    requires Positive(ttls) && TrackingSet(At(ks, ActiveOrders)) && e.event.PreWarm?
    ensures At(Step(ks, e, ttls), Heartbeat(id)) ==
      if Touches(e, id) then Some(R.Entry(R.Text("1"), Some(e.at + ttls.heartbeat))) else At(ks, Heartbeat(id))
  {
    var orders := e.event.orders;
    assert Touches(e, id) == Lists(orders, id);
    assert Step(ks, e, ttls) == RC.PreWarm(ks, orders, ttls.heartbeat, ttls.mapping, e.at);
    PreWarmEffect(ks, orders, ttls, e.at, Heartbeat(id));
  }

  /** Only an interest shown changes a heartbeat key. */
  lemma StepHeartbeat(ks: R.Keyspace, e: Dated<Event>, ttls: Ttls, id: Id)
    requires Positive(ttls) && TrackingSet(At(ks, ActiveOrders)) && Decodable(At(ks, Location(id)))
    ensures At(Step(ks, e, ttls), Heartbeat(id)) ==
      if Touches(e, id) then Some(R.Entry(R.Text("1"), Some(e.at + ttls.heartbeat))) else At(ks, Heartbeat(id))
  {
    match e.event
    case Request(other) => RequestHeartbeat(ks, other, ttls.heartbeat, e.at, id);
    case PreWarm(_) => PreWarmHeartbeat(ks, e, ttls, id);
    case _ => PlainHeartbeat(ks, e, ttls, id);
  }

  lemma {:induction false} Origins(h: seq<Dated<Event>>, ttls: Ttls, id: Id)
    requires Positive(ttls)
    ensures TrackingSet(At(After(h, ttls), ActiveOrders))
    ensures LocationOrigin(h, At(After(h, ttls), Location(id)), ttls, id)
    ensures HeartbeatOrigin(h, At(After(h, ttls), Heartbeat(id)), ttls, id)
  {
    if h != [] {
      var n := |h| - 1;
      var ks := After(h[..n], ttls);
      Origins(h[..n], ttls, id);
      StepKeepsTrackingSet(ks, h[n], ttls);
      StepLocation(ks, h[n], ttls, id);
      StepHeartbeat(ks, h[n], ttls, id);
      OriginsLater(h, At(ks, Location(id)), At(After(h, ttls), Location(id)),
                   At(ks, Heartbeat(id)), At(After(h, ttls), Heartbeat(id)), ttls, id);
    }
  }

  lemma OriginsLater(
    h: seq<Dated<Event>>, loc: Option<R.Entry>, loc': Option<R.Entry>, beat: Option<R.Entry>, beat': Option<R.Entry>,
    ttls: Ttls, id: Id)
    requires h != [] && LocationOrigin(h[..|h| - 1], loc, ttls, id) && HeartbeatOrigin(h[..|h| - 1], beat, ttls, id)
    requires var e := h[|h| - 1];
      loc' == if Puts(e, id) then Some(R.Entry(R.Json(e.event.location), Some(e.at + ttls.location))) else loc
    requires var e := h[|h| - 1];
      beat' == if Touches(e, id) then Some(R.Entry(R.Text("1"), Some(e.at + ttls.heartbeat))) else beat
    ensures LocationOrigin(h, loc', ttls, id) && HeartbeatOrigin(h, beat', ttls, id)
  {
    var n := |h| - 1;
    if Puts(h[n], id) {
      assert LocationOf(h, n, loc'.value, ttls, id);
    } else if loc'.Some? {
      var i :| LocationOf(h[..n], i, loc.value, ttls, id);
      assert LocationOf(h, i, loc'.value, ttls, id);
    }
    if Touches(h[n], id) {
      assert HeartbeatOf(h, n, beat'.value, ttls, id);
    } else if beat'.Some? {
      var i :| HeartbeatOf(h[..n], i, beat.value, ttls, id);
      assert HeartbeatOf(h, i, beat'.value, ttls, id);
    }
  }

  /**
   Whatever survives a clean-up is an order in which interest was shown within the heartbeat
   TTL: the Redis tracking set lies inside the sliding window.
   */
  lemma {:induction false} TrackedInsideWindow(h: seq<Dated<Event>>, ttls: Ttls, now: Time, m: string)
    requires Positive(ttls)
    ensures m in RC.Tracked(RC.RemoveInactive(After(h, ttls), now), now) ==>
      ParseInt(m).Some? && exists i :: TouchedAt(h, i, ParseInt(m).value) && now <= h[i].at + ttls.heartbeat
  {
    Origins(h, ttls, 0);
    CleanUpEffect(After(h, ttls), now, ActiveOrders);
    if m in RC.Tracked(RC.RemoveInactive(After(h, ttls), now), now) {
      assert m in R.SMembers(After(h, ttls), Render(ActiveOrders), now).value;
      var id := ParseInt(m).value;
      Origins(h, ttls, id);
      var i :| HeartbeatOf(h, i, At(After(h, ttls), Heartbeat(id)).value, ttls, id);
    }
  }

  /** A hit, tracked or not, shows a location written at most one location TTL ago. */
  lemma HitIsRecent(h: seq<Dated<Event>>, ttls: Ttls, id: Id, now: Time, location: CourierLocation)
    requires Positive(ttls)
    requires AfterRequest(After(h, ttls), id, ttls.heartbeat, now).1 == Some(L.Hit(location))
    ensures exists i :: PutAt(h, i, id) && now <= h[i].at + ttls.location && h[i].event.location == location
  {
    Origins(h, ttls, id);
    var i :| LocationOf(h, i, At(After(h, ttls), Location(id)).value, ttls, id);
  }

  /**
   Tracking heals itself: once no location of the order has been written for longer than the
   location TTL, a request misses, and leaves the order tracked with a fresh heartbeat.
   */
  lemma {:induction false} LostOrderIsPickedUp(h: seq<Dated<Event>>, ttls: Ttls, id: Id, now: Time)
    requires Positive(ttls) && id > 0
    requires forall i :: PutAt(h, i, id) ==> h[i].at + ttls.location < now
    ensures var (ks, r) := AfterRequest(After(h, ttls), id, ttls.heartbeat, now);
      && r == Some(L.Miss)
      && FormatInt(id) in RC.Tracked(ks, now)
      && R.Exists(ks, Render(Heartbeat(id)), now + ttls.heartbeat)
  {
    Origins(h, ttls, id);
    RegisterEffect(After(h, ttls), id, ttls.heartbeat, now, Heartbeat(id));
  }

  /**
   From caches in step a request gets the same answer on both, and an invalid id an error on both;
   the caches stay in step if and only if the request did not hit an untracked order.
   */
  lemma RequestAgrees(s: M.Store, ks: R.Keyspace, id: Id, heartbeatTtl: Time, now: Time)
    requires CS.Agree(s, ks, now) && heartbeatTtl > 0
    ensures var (s', r), (ks', r') := L.Request(s, id, heartbeatTtl, now), AfterRequest(ks, id, heartbeatTtl, now);
      && r' == Some(r)
      && (r == L.InvalidOrderId <==> id <= 0)
      && (CS.Agree(s', ks', now) <==> (r.Hit? ==> id in s.activeOrders))
  {
    CS.ReadsAgree(s, ks, id, now);
    if id > 0 && M.Read(s.locations, id, now).Some? {
      CS.RefreshAgreesIff(s, ks, id, heartbeatTtl, now);
    } else if id > 0 {
      CS.RegisterStep(s, ks, id, heartbeatTtl, now);
    }
  }

  // ---------- Exactly which orders are tracked ----------

  /** The clock never runs back. */
  predicate Ordered(h: seq<Dated<Event>>) {
    forall i, j :: 0 <= i <= j < |h| ==> h[i].at <= h[j].at
  }

  predicate Covers(e: Option<R.Entry>, until: Time) {
    e.Some? && e.value.deadline.Some? && until <= e.value.deadline.value
  }

  /** No later event shortens the life of a stored location. */
  lemma {:induction false} PutLasts(h: seq<Dated<Event>>, ttls: Ttls, id: Id, i: nat)
    requires Positive(ttls) && Ordered(h) && PutAt(h, i, id)
    ensures Covers(At(After(h, ttls), Location(id)), h[i].at + ttls.location)
    decreases |h|
  {
    var n := |h| - 1;
    Origins(h[..n], ttls, id);
    StepLocation(After(h[..n], ttls), h[n], ttls, id);
    if i < n {
      assert h[..n][i] == h[i];
      PutLasts(h[..n], ttls, id, i);
    }
  }

  /** Nor that of a heartbeat. */
  lemma {:induction false} TouchLasts(h: seq<Dated<Event>>, ttls: Ttls, id: Id, i: nat)
    requires Positive(ttls) && Ordered(h) && TouchedAt(h, i, id)
    ensures Covers(At(After(h, ttls), Heartbeat(id)), h[i].at + ttls.heartbeat)
    decreases |h|
  {
    var n := |h| - 1;
    Origins(h[..n], ttls, id);
    StepHeartbeat(After(h[..n], ttls), h[n], ttls, id);
    if i < n {
      assert h[..n][i] == h[i];
      TouchLasts(h[..n], ttls, id, i);
    }
  }

  /** Some location of the order was written no longer than the location TTL ago. */
  ghost predicate WrittenWithin(h: seq<Dated<Event>>, n: int, ttls: Ttls, id: Id, now: Time) {
    exists j :: 0 <= j < n && PutAt(h, j, id) && now <= h[j].at + ttls.location
  }

  /** Some interest shown at position `from` or later is no older than the heartbeat TTL. */
  ghost predicate TouchedWithin(h: seq<Dated<Event>>, from: int, n: int, ttls: Ttls, id: Id, now: Time) {
    exists t :: from <= t < n && TouchedAt(h, t, id) && now <= h[t].at + ttls.heartbeat
  }

  /** A request misses if and only if no location was written within the location TTL. */
  lemma {:induction false} MissIff(h: seq<Dated<Event>>, ttls: Ttls, id: Id, now: Time)
    requires Positive(ttls) && Ordered(h) && id > 0
    ensures AfterRequest(After(h, ttls), id, ttls.heartbeat, now).1 == Some(L.Miss)
      <==> !WrittenWithin(h, |h|, ttls, id, now)
  {
    Origins(h, ttls, id);
    forall i | PutAt(h, i, id)
      ensures Covers(At(After(h, ttls), Location(id)), h[i].at + ttls.location)
    {
      PutLasts(h, ttls, id, i);
    }
    var e := At(After(h, ttls), Location(id));
    if e.Some? {
      var i :| LocationOf(h, i, e.value, ttls, id);
    }
  }

  lemma {:induction false} RecentTouchKeepsAlive(h: seq<Dated<Event>>, ttls: Ttls, id: Id, now: Time, i: nat)
    requires Positive(ttls) && Ordered(h) && TouchedAt(h, i, id) && now <= h[i].at + ttls.heartbeat
    ensures !RC.IsDead(After(h, ttls), FormatInt(id), now)
  {
    ParseInverse(id);
    TouchLasts(h, ttls, id, i);
  }

  lemma {:induction false} BeatAliveIff(h: seq<Dated<Event>>, ttls: Ttls, id: Id, now: Time)
    requires Positive(ttls) && Ordered(h)
    ensures RC.IsDead(After(h, ttls), FormatInt(id), now) <==> !TouchedWithin(h, 0, |h|, ttls, id, now)
  {
    if i :| 0 <= i < |h| && TouchedAt(h, i, id) && now <= h[i].at + ttls.heartbeat {
      RecentTouchKeepsAlive(h, ttls, id, now, i);
    } else {
      ParseInverse(id);
      Origins(h, ttls, id);
    }
  }

  /** The step adds the order to the tracking set: a request that misses, or a pre-warm. */
  predicate Registers(ks: R.Keyspace, e: Dated<Event>, ttls: Ttls, id: Id) {
    match e.event
    case Request(other) =>
      other == id && AfterRequest(ks, id, ttls.heartbeat, e.at).1 == Some(L.Miss)
    case PreWarm(orders) => Lists(orders, id)
    case _ => false
  }

  lemma TrackedAnyTime(ks: R.Keyspace, now: Time, later: Time)
    requires TrackingSet(At(ks, ActiveOrders))
    ensures RC.Tracked(ks, now) == RC.Tracked(ks, later)
  {
  }

  lemma SetKeepsTracked(ks: R.Keyspace, k: Key, e: R.Entry, now: Time)
    requires k != ActiveOrders
    ensures RC.Tracked(ks[Render(k) := e], now) == RC.Tracked(ks, now)
  {
    SetEffect(ks, k, e, ActiveOrders);
  }

  lemma PreWarmOneTracks(ks: R.Keyspace, o: Order, ttls: Ttls, now: Time, id: Id)
    requires Positive(ttls) && TrackingSet(At(ks, ActiveOrders))
    ensures var ks' := RC.SetMapping(RC.Register(ks, o.id, ttls.heartbeat, now), o.id, o.courierId, ttls.mapping, now);
      FormatInt(id) in RC.Tracked(ks', now) <==> o.id == id || FormatInt(id) in RC.Tracked(ks, now)
  {
    RegisterEffect(ks, o.id, ttls.heartbeat, now, ActiveOrders);
    SetKeepsTracked(RC.Register(ks, o.id, ttls.heartbeat, now), Courier(o.id),
                    R.Entry(R.Text(FormatInt(o.courierId)), Some(now + ttls.mapping)), now);
    ParseInverse(o.id);
    ParseInverse(id);
  }

  lemma {:induction false} PreWarmTracks(ks: R.Keyspace, orders: seq<Order>, ttls: Ttls, now: Time, id: Id)
    requires Positive(ttls) && TrackingSet(At(ks, ActiveOrders))
    ensures FormatInt(id) in RC.Tracked(RC.PreWarm(ks, orders, ttls.heartbeat, ttls.mapping, now), now)
      <==> Lists(orders, id) || FormatInt(id) in RC.Tracked(ks, now)
  {
    if orders != [] {
      var n := |orders| - 1;
      PreWarmTracks(ks, orders[..n], ttls, now, id);
      PreWarmEffect(ks, orders[..n], ttls, now, ActiveOrders);
      PreWarmOneTracks(RC.PreWarm(ks, orders[..n], ttls.heartbeat, ttls.mapping, now), orders[n], ttls, now, id);
    }
  }

  lemma RequestTracks(ks: R.Keyspace, other: Id, ttl: Time, now: Time, id: Id)
    requires ttl > 0 && TrackingSet(At(ks, ActiveOrders))
    ensures var (ks', r) := AfterRequest(ks, other, ttl, now);
      FormatInt(id) in RC.Tracked(ks', now) <==>
      (other == id && r == Some(L.Miss)) || FormatInt(id) in RC.Tracked(ks, now)
  {
    RegisterEffect(ks, other, ttl, now, ActiveOrders);
    SetKeepsTracked(ks, Heartbeat(other), R.Entry(R.Text("1"), Some(now + ttl)), now);
    ParseInverse(other);
    ParseInverse(id);
  }

  lemma {:induction false} StepTracks(ks: R.Keyspace, e: Dated<Event>, ttls: Ttls, id: Id)
    requires Positive(ttls) && TrackingSet(At(ks, ActiveOrders)) && !e.event.CleanUp?
    ensures FormatInt(id) in RC.Tracked(Step(ks, e, ttls), e.at)
      <==> Registers(ks, e, ttls, id) || FormatInt(id) in RC.Tracked(ks, e.at)
  {
    match e.event
    case Request(other) => RequestTracks(ks, other, ttls.heartbeat, e.at, id);
    case PutLocation(location) =>
      SetKeepsTracked(ks, Location(location.orderId), R.Entry(R.Json(location), Some(e.at + ttls.location)), e.at);
    case PutMapping(other, courierId) =>
      SetKeepsTracked(ks, Courier(other), R.Entry(R.Text(FormatInt(courierId)), Some(e.at + ttls.mapping)), e.at);
    case PreWarm(orders) => PreWarmTracks(ks, orders, ttls, e.at, id);
  }

  /** Entry i is a miss for the order, or a pre-warm that lists it. */
  ghost predicate RegisteredAt(h: seq<Dated<Event>>, i: int, ttls: Ttls, id: Id) {
    TouchedAt(h, i, id) && (h[i].event.Request? ==> !WrittenWithin(h, i, ttls, id, h[i].at))
  }

  /** Every clean-up after position i came while some interest shown since then was recent enough. */
  ghost predicate KeptSince(h: seq<Dated<Event>>, i: int, ttls: Ttls, id: Id) {
    forall c :: i < c && 0 <= c < |h| && h[c].event.CleanUp? ==> TouchedWithin(h, i, c, ttls, id, h[c].at)
  }

  ghost predicate HeldFrom(h: seq<Dated<Event>>, i: int, ttls: Ttls, id: Id) {
    RegisteredAt(h, i, ttls, id) && KeptSince(h, i, ttls, id)
  }

  lemma {:induction false} PrefixFacts(h: seq<Dated<Event>>, i: int, m: int, ttls: Ttls, id: Id, now: Time)
    requires h != [] && i < |h| && m < |h|
    ensures WrittenWithin(h[..|h| - 1], m, ttls, id, now) <==> WrittenWithin(h, m, ttls, id, now)
    ensures TouchedWithin(h[..|h| - 1], i, m, ttls, id, now) <==> TouchedWithin(h, i, m, ttls, id, now)
  {
  }

  lemma {:induction false} HeldInPrefix(h: seq<Dated<Event>>, i: int, ttls: Ttls, id: Id)
    requires h != [] && i < |h| - 1
    ensures var n := |h| - 1;
      HeldFrom(h, i, ttls, id) <==>
      HeldFrom(h[..n], i, ttls, id) && (h[n].event.CleanUp? ==> TouchedWithin(h[..n], i, n, ttls, id, h[n].at))
  {
  }

  lemma {:induction false} HeldFromLast(h: seq<Dated<Event>>, ttls: Ttls, id: Id)
    requires Positive(ttls) && Ordered(h) && h != []
    ensures var n := |h| - 1; HeldFrom(h, n, ttls, id) <==> Registers(After(h[..n], ttls), h[n], ttls, id)
  {
    var n := |h| - 1;
    PrefixFacts(h, 0, n, ttls, id, h[n].at);
    if id > 0 {
      MissIff(h[..n], ttls, id, h[n].at);
    }
  }

  /**
   Exactly which orders Redis tracks: those with a registration (a miss or a pre-warm) such that
   every clean-up since came within the heartbeat TTL of an interest shown since. A hit alone
   keeps a heartbeat alive but registers nothing.
   */
  lemma {:induction false} TrackedIff(h: seq<Dated<Event>>, ttls: Ttls, id: Id, now: Time)
    requires Positive(ttls) && Ordered(h)
    ensures FormatInt(id) in RC.Tracked(After(h, ttls), now) <==> exists i :: HeldFrom(h, i, ttls, id)
    decreases |h|, 0
  {
    if h != [] {
      var n := |h| - 1;
      var before := After(h[..n], ttls);
      Origins(h[..n], ttls, id);
      Origins(h, ttls, id);
      TrackedAnyTime(After(h, ttls), now, h[n].at);
      HeldFromLast(h, ttls, id);
      forall i | i < n
        ensures HeldFrom(h, i, ttls, id) <==>
          HeldFrom(h[..n], i, ttls, id) && (h[n].event.CleanUp? ==> TouchedWithin(h[..n], i, n, ttls, id, h[n].at))
      {
        HeldInPrefix(h, i, ttls, id);
      }
      if h[n].event.CleanUp? {
        TrackedAfterCleanUpIff(h[..n], ttls, id, h[n].at);
      } else {
        TrackedIff(h[..n], ttls, id, h[n].at);
        StepTracks(before, h[n], ttls, id);
      }
      HeldSplit(h, ttls, id);
    }
  }

  lemma {:induction false} HeldSplit(h: seq<Dated<Event>>, ttls: Ttls, id: Id)
    requires h != []
    ensures var n := |h| - 1;
      (exists i :: HeldFrom(h, i, ttls, id)) <==> HeldFrom(h, n, ttls, id) || exists i :: i < n && HeldFrom(h, i, ttls, id)
  {
  }

  /** What a clean-up leaves tracked: it counts among the clean-ups that need a recent interest. */
  lemma {:induction false} TrackedAfterCleanUpIff(h: seq<Dated<Event>>, ttls: Ttls, id: Id, now: Time)
    requires Positive(ttls) && Ordered(h)
    ensures FormatInt(id) in RC.Tracked(RC.RemoveInactive(After(h, ttls), now), now) <==>
      exists i :: HeldFrom(h, i, ttls, id) && TouchedWithin(h, i, |h|, ttls, id, now)
    decreases |h|, 1
  {
    TrackedIff(h, ttls, id, now);
    Origins(h, ttls, id);
    CleanUpEffect(After(h, ttls), now, ActiveOrders);
    BeatAliveIff(h, ttls, id, now);
    if TouchedWithin(h, 0, |h|, ttls, id, now) {
      var t :| 0 <= t < |h| && TouchedAt(h, t, id) && now <= h[t].at + ttls.heartbeat;
      forall i | HeldFrom(h, i, ttls, id)
        ensures TouchedWithin(h, i, |h|, ttls, id, now)
      {
        assert TouchedAt(h, i, id) && (t < i ==> h[t].at <= h[i].at);
      }
    }
  }

  /**
   The window is not enough: an order cleaned up while its location is still cached is hit again
   10 ms later, so it lies in the window, and yet the next clean-up leaves it untracked.
   */
  lemma {:induction false} HitLeavesUntracked(location: CourierLocation)
    returns (h: seq<Dated<Event>>, ttls: Ttls)
    requires location.orderId == 7
    ensures Positive(ttls) && Ordered(h)
    ensures ttls == Ttls(90, 120, 3600)
    ensures h == [Dated(1, Request(7)), Dated(80, PutLocation(location)), Dated(100, CleanUp), Dated(110, Request(7))]
    ensures AfterRequest(After(h[..3], ttls), 7, ttls.heartbeat, 110).1 == Some(L.Hit(location))
    ensures TouchedWithin(h, 0, |h|, ttls, 7, 110)
    ensures FormatInt(7) !in RC.Tracked(RC.RemoveInactive(After(h, ttls), 110), 110)
  {
    ttls := Ttls(90, 120, 3600);
    h := [Dated(1, Request(7)), Dated(80, PutLocation(location)), Dated(100, CleanUp), Dated(110, Request(7))];
    assert PutAt(h[..3], 1, 7) && PutAt(h, 1, 7) && TouchedAt(h, 3, 7);
    MissIff(h[..3], ttls, 7, 110);
    Origins(h[..3], ttls, 7);
    HitIsRecent(h[..3], ttls, 7, 110, AfterRequest(After(h[..3], ttls), 7, ttls.heartbeat, 110).1.value.location);
    TrackedAfterCleanUpIff(h, ttls, 7, 110);
    forall i
      ensures !HeldFrom(h, i, ttls, 7)
    {
      assert i == 0 ==> !TouchedWithin(h, i, 2, ttls, 7, h[2].at);
    }
  }
}
