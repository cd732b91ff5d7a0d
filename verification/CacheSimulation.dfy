/**
 The two cache implementations side by side on the same calls: exactly which calls keep them
 in step, and that every run of such calls gets the same answers from both.
 */
module CacheSimulation {
  import opened Domain
  import opened Keys
  import R = Redis
  import RC = RedisCache
  import M = MemoryCache

  datatype Op =
    | GetLocation(id: Id)
    | SetLocation(location: CourierLocation, ttl: Time)
    | SetLocations(batch: seq<CourierLocation>, ttl: Time)
    | GetMapping(id: Id)
    | SetMapping(id: Id, courierId: Id, ttl: Time)
    | Register(id: Id, ttl: Time)
    | Refresh(id: Id, ttl: Time)
    | ActiveIds
    | RemoveInactive
    | SetSync(at: Time)
    | GetSync
    | Acquire(instance: string, ttl: Time)
    | Renew(instance: string, ttl: Time)
    | Release(instance: string)
    | PreWarm(orders: seq<Order>, heartbeatTtl: Time, ttl: Time)
    | MarkPreWarmed
    | ReadPreWarmed

  datatype Out =
    | Done
    | Located(location: Option<CourierLocation>)
    | Mapped(courierId: Option<Id>)
    | Ids(ids: set<Id>)
    | Synced(at: Time)
    | Flag(flag: bool)
    | Error

  function LeaderKey(): string { Render(LeaderLock) }

  function MemoryStep(s: M.Store, op: Op, now: Time): (M.Store, Out) {
    match op
    case GetLocation(id) => (s, Located(M.Read(s.locations, id, now)))
    case SetLocation(location, ttl) => (s.SetLocation(location, ttl, now), Done)
    case SetLocations(batch, ttl) => (s.SetLocations(batch, ttl, now), Done)
    case GetMapping(id) => (s, Mapped(M.Read(s.courierMaps, id, now)))
    case SetMapping(id, courierId, ttl) => (s.SetMapping(id, courierId, ttl, now), Done)
    case Register(id, ttl) => (s.Track(id, ttl, now), Done)
    case Refresh(id, ttl) => (s.Track(id, ttl, now), Done)
    case ActiveIds => (s, Ids(s.activeOrders.Keys))
    case RemoveInactive => (s.Purge(now), Done)
    case SetSync(at) => (s.(lastSync := at), Done)
    case GetSync => (s, Synced(s.lastSync))
    case Acquire(instance, ttl) => var r := s.Acquire(LeaderKey(), instance, ttl, now); (r.0, Flag(r.1))
    case Renew(instance, ttl) => var r := s.Renew(LeaderKey(), instance, ttl, now); (r.0, Flag(r.1))
    case Release(instance) => (s.Release(LeaderKey(), instance), Done)
    case PreWarm(orders, heartbeatTtl, ttl) => (s.PreWarm(orders, heartbeatTtl, ttl, now), Done)
    case MarkPreWarmed => (s.(preWarmed := true), Done)
    case ReadPreWarmed => (s, Flag(s.preWarmed))
  }

  function ParsedIds(members: set<string>): set<Id> {
    set m | m in members && ParseInt(m).Some? :: ParseInt(m).value
  }

  function RedisStep(ks: R.Keyspace, op: Op, now: Time): (R.Keyspace, Out) {
    match op
    case GetLocation(id) =>
      var r := RC.LocationAt(ks, id, now); (ks, if r.Ok? then Located(r.value) else Error)
    case SetLocation(location, ttl) => (RC.SetLocation(ks, location, ttl, now), Done)
    case SetLocations(batch, ttl) => (RC.SetLocations(ks, batch, ttl, now), Done)
    case GetMapping(id) =>
      var r := RC.MappingAt(ks, id, now); (ks, if r.Ok? then Mapped(r.value) else Error)
    case SetMapping(id, courierId, ttl) => (RC.SetMapping(ks, id, courierId, ttl, now), Done)
    case Register(id, ttl) => (RC.Register(ks, id, ttl, now), Done)
    case Refresh(id, ttl) => (RC.Beat(ks, id, ttl, now), Done)
    case ActiveIds =>
      var r := R.SMembers(ks, Render(ActiveOrders), now); (ks, if r.Some? then Ids(ParsedIds(r.value)) else Error)
    case RemoveInactive => (RC.RemoveInactive(ks, now), Done)
    case SetSync(at) => (R.Set(ks, Render(LastSync), R.Stamp(at), 0, now), Done)
    case GetSync =>
      var r := RC.LastSyncAt(ks, now); (ks, if r.Ok? then Synced(r.value) else Error)
    case Acquire(instance, ttl) => var r := R.SetNX(ks, LeaderKey(), R.Text(instance), ttl, now); (r.0, Flag(r.1))
    case Renew(instance, ttl) =>
      var r := R.EvalRenew(ks, LeaderKey(), instance, ttl, now); (r.0, if r.1.Some? then Flag(r.1.value) else Error)
    case Release(instance) =>
      var r := R.EvalRelease(ks, LeaderKey(), instance, now); (r.0, if r.1 then Done else Error)
    case PreWarm(orders, heartbeatTtl, ttl) => (RC.PreWarm(ks, orders, heartbeatTtl, ttl, now), Done)
    case MarkPreWarmed => (R.Set(ks, Render(PreWarmed), R.Text("1"), 0, now), Done)
    case ReadPreWarmed =>
      var r := RC.PreWarmedAt(ks, now); (ks, if r.Ok? then Flag(r.value) else Error)
  }

  function Until(expiresAt: Time): Option<Time> {
    Only(expiresAt != ZERO_TIME, expiresAt)
  }

  function Printed(ids: set<Id>): set<string> {
    set id | id in ids :: FormatInt(id)
  }

  /** The Redis entry that the in-memory store stands for, key by key. */
  function Abs(s: M.Store, k: Key): Option<R.Entry> {
    match k
    case Location(id) =>
      if id in s.locations then Some(R.Entry(R.Json(s.locations[id].value), Until(s.locations[id].expiresAt))) else None
    case Courier(id) =>
      if id in s.courierMaps then
        Some(R.Entry(R.Text(FormatInt(s.courierMaps[id].value)), Until(s.courierMaps[id].expiresAt)))
      else None
    case ActiveOrders => Only(s.activeOrders != map[], R.Entry(R.Members(Printed(s.activeOrders.Keys)), None))
    case Heartbeat(id) =>
      if id in s.activeOrders then Some(R.Entry(R.Text("1"), Some(s.activeOrders[id]))) else None
    case LastSync => Only(s.lastSync != ZERO_TIME, R.Entry(R.Stamp(s.lastSync), None))
    case PreWarmed => Only(s.preWarmed, R.Entry(R.Text("1"), None))
    case LeaderLock =>
      if LeaderKey() in s.leaderLocks then
        var lock := s.leaderLocks[LeaderKey()]; Some(R.Entry(R.Text(lock.owner), Some(lock.expiresAt)))
      else None
  }

  function Seen(e: Option<R.Entry>, now: Time): Option<R.Entry> {
    if e.Some? && e.value.Alive(now) then e else None
  }

  /** A stored zero time reads back like no time at all. */
  function Shown(k: Key, e: Option<R.Entry>): Option<R.Entry> {
    if k == LastSync && e == Some(R.Entry(R.Stamp(ZERO_TIME), None)) then None else e
  }

  function Visible(ks: R.Keyspace, k: Key, now: Time): Option<R.Entry> {
    Shown(k, R.Lookup(ks, Render(k), now))
  }

  /** Every key of the layout shows the same live entry on both sides. */
  ghost predicate Agree(s: M.Store, ks: R.Keyspace, now: Time) {
    forall k: Key :: Visible(ks, k, now) == Seen(Abs(s, k), now)
  }

  lemma AgreeLater(s: M.Store, ks: R.Keyspace, now: Time, later: Time)
    requires Agree(s, ks, now) && now <= later
    ensures Agree(s, ks, later)
  {
  }

  /** The calls on which the implementations agree; StepAgreesIff says that they are all. */
  predicate Admissible(s: M.Store, op: Op, now: Time) {
    match op
    case Register(_, ttl) => ttl > 0
    case Refresh(id, ttl) => ttl > 0 && id in s.activeOrders
    case PreWarm(orders, heartbeatTtl, _) => heartbeatTtl > 0 || orders == []
    case Acquire(instance, ttl) => !HeldBy(s, instance, now) && (ttl > 0 || s.Holder(LeaderKey(), now).Some?)
    case Renew(instance, ttl) => ttl != 0 || !HeldBy(s, instance, now)
    case _ => true
  }

  predicate HeldBy(s: M.Store, instance: string, now: Time) {
    var holder := s.Holder(LeaderKey(), now);
    holder.Some? && holder.value.owner == instance
  }

  lemma {:induction false} PrintedParse(ids: set<Id>)
    ensures ParsedIds(Printed(ids)) == ids
    ensures forall id: Id :: FormatInt(id) in Printed(ids) <==> id in ids
  {
    forall id: Id {
      ParseInverse(id);
    }
    forall id: Id
      ensures FormatInt(id) in Printed(ids) <==> id in ids
    {
      if FormatInt(id) in Printed(ids) {
        var other :| other in ids && FormatInt(other) == FormatInt(id);
        FormatInjective(id, other);
      }
    }
    forall id: Id | id in ids
      ensures id in ParsedIds(Printed(ids))
    {
      assert FormatInt(id) in Printed(ids);
    }
  }

  lemma SetShows(ks: R.Keyspace, k: Key, e: R.Entry, other: Key, now: Time)
    ensures Visible(ks[Render(k) := e], other, now) ==
      if other == k then Shown(k, Seen(Some(e), now)) else Visible(ks, other, now)
  {
    if Render(k) == Render(other) {
      RenderInjective(k, other);
    }
  }

  /** Overwriting one key on both sides keeps the rest in step. */
  lemma AgreeAfterUpdate(s: M.Store, s': M.Store, ks: R.Keyspace, k: Key, e: R.Entry, now: Time)
    requires Agree(s, ks, now)
    requires forall other: Key :: other != k ==> Seen(Abs(s', other), now) == Seen(Abs(s, other), now)
    requires Seen(Abs(s', k), now) == Shown(k, Seen(Some(e), now))
    ensures Agree(s', ks[Render(k) := e], now)
  {
    forall other: Key
      ensures Visible(ks[Render(k) := e], other, now) == Seen(Abs(s', other), now)
    {
      SetShows(ks, k, e, other, now);
      assert Visible(ks, other, now) == Seen(Abs(s, other), now);
    }
  }

  lemma AgreeAfterDelete(s: M.Store, s': M.Store, ks: R.Keyspace, k: Key, now: Time)
    requires Agree(s, ks, now)
    requires forall other: Key :: other != k ==> Seen(Abs(s', other), now) == Seen(Abs(s, other), now)
    requires Seen(Abs(s', k), now) == None
    ensures Agree(s', ks - {Render(k)}, now)
  {
    RenderDistinct();
    forall other: Key
      ensures Visible(ks - {Render(k)}, other, now) == Seen(Abs(s', other), now)
    {
      assert Visible(ks, other, now) == Seen(Abs(s, other), now);
    }
  }

  lemma LocationStep(s: M.Store, ks: R.Keyspace, location: CourierLocation, ttl: Time, now: Time)
    requires Agree(s, ks, now) && now > 0
    ensures Agree(s.SetLocation(location, ttl, now), RC.SetLocation(ks, location, ttl, now), now)
  {
    AgreeAfterUpdate(s, s.SetLocation(location, ttl, now), ks, Location(location.orderId),
                     R.Entry(R.Json(location), R.Deadline(now, ttl)), now);
  }

  lemma {:induction false} LocationsStep(s: M.Store, ks: R.Keyspace, batch: seq<CourierLocation>, ttl: Time, now: Time)
    requires Agree(s, ks, now) && now > 0
    ensures Agree(s.SetLocations(batch, ttl, now), RC.SetLocations(ks, batch, ttl, now), now)
  {
    if batch != [] {
      var n := |batch| - 1;
      LocationsStep(s, ks, batch[..n], ttl, now);
      LocationStep(s.SetLocations(batch[..n], ttl, now), RC.SetLocations(ks, batch[..n], ttl, now), batch[n], ttl, now);
    }
  }

  lemma MappingStep(s: M.Store, ks: R.Keyspace, id: Id, courierId: Id, ttl: Time, now: Time)
    requires Agree(s, ks, now) && now > 0
    ensures Agree(s.SetMapping(id, courierId, ttl, now), RC.SetMapping(ks, id, courierId, ttl, now), now)
  {
    AgreeAfterUpdate(s, s.SetMapping(id, courierId, ttl, now), ks, Courier(id),
                     R.Entry(R.Text(FormatInt(courierId)), R.Deadline(now, ttl)), now);
  }

  /** The tracking set in Redis holds exactly the printed tracked ids. */
  lemma MembersAgree(s: M.Store, ks: R.Keyspace, now: Time)
    requires Agree(s, ks, now)
    ensures R.SMembers(ks, Render(ActiveOrders), now) == Some(Printed(s.activeOrders.Keys))
  {
    assert Visible(ks, ActiveOrders, now) == Seen(Abs(s, ActiveOrders), now);
    if s.activeOrders == map[] {
      assert Printed(s.activeOrders.Keys) == {};
    }
  }

  lemma MembersAfterAdd(s: M.Store, ks: R.Keyspace, id: Id, ttl: Time, now: Time)
    requires Visible(ks, ActiveOrders, now) == Seen(Abs(s, ActiveOrders), now)
    ensures var tracked := R.Entry(R.Members(Printed(s.Track(id, ttl, now).activeOrders.Keys)), None);
      && Abs(s.Track(id, ttl, now), ActiveOrders) == Some(tracked)
      && R.SAdd(ks, Render(ActiveOrders), FormatInt(id), now) == ks[Render(ActiveOrders) := tracked]
  {
    var s' := s.Track(id, ttl, now);
    assert id in s'.activeOrders;
    assert s'.activeOrders.Keys == s.activeOrders.Keys + {id};
    assert Printed(s'.activeOrders.Keys) == Printed(s.activeOrders.Keys) + {FormatInt(id)};
    if s.activeOrders == map[] {
      assert Printed(s'.activeOrders.Keys) == {FormatInt(id)};
    }
  }

  lemma RegisterStep(s: M.Store, ks: R.Keyspace, id: Id, ttl: Time, now: Time)
    requires Agree(s, ks, now) && ttl > 0
    ensures Agree(s.Track(id, ttl, now), RC.Register(ks, id, ttl, now), now)
  {
    assert Visible(ks, ActiveOrders, now) == Seen(Abs(s, ActiveOrders), now);
    MembersAfterAdd(s, ks, id, ttl, now);
    AgreeAfterTwo(s, s.Track(id, ttl, now), ks, ActiveOrders, Abs(s.Track(id, ttl, now), ActiveOrders).value,
                  Heartbeat(id), R.Entry(R.Text("1"), Some(now + ttl)), now);
  }

  lemma AgreeAfterTwo(
    s: M.Store, s': M.Store, ks: R.Keyspace, k1: Key, e1: R.Entry, k2: Key, e2: R.Entry, now: Time)
    requires Agree(s, ks, now) && k1 != k2
    requires k1 != LastSync && k2 != LastSync
    requires forall other: Key :: other != k1 && other != k2 ==> Abs(s', other) == Abs(s, other)
    requires Abs(s', k1) == Some(e1) && Abs(s', k2) == Some(e2)
    ensures Agree(s', ks[Render(k1) := e1][Render(k2) := e2], now)
  {
    forall other: Key
      ensures Visible(ks[Render(k1) := e1][Render(k2) := e2], other, now) == Seen(Abs(s', other), now)
    {
      SetShows(ks, k1, e1, other, now);
      SetShows(ks[Render(k1) := e1], k2, e2, other, now);
      assert Visible(ks, other, now) == Seen(Abs(s, other), now);
    }
  }

  lemma RefreshStep(s: M.Store, ks: R.Keyspace, id: Id, ttl: Time, now: Time)
    requires Agree(s, ks, now) && ttl > 0 && id in s.activeOrders
    ensures Agree(s.Track(id, ttl, now), RC.Beat(ks, id, ttl, now), now)
  {
    var s' := s.Track(id, ttl, now);
    assert s'.activeOrders.Keys == s.activeOrders.Keys;
    AgreeAfterUpdate(s, s', ks, Heartbeat(id), R.Entry(R.Text("1"), Some(now + ttl)), now);
  }

  lemma {:induction false} PreWarmStep(
    s: M.Store, ks: R.Keyspace, orders: seq<Order>, heartbeatTtl: Time, ttl: Time, now: Time)
    requires Agree(s, ks, now) && now > 0 && (heartbeatTtl > 0 || orders == [])
    ensures Agree(s.PreWarm(orders, heartbeatTtl, ttl, now), RC.PreWarm(ks, orders, heartbeatTtl, ttl, now), now)
  {
    if orders != [] {
      var n := |orders| - 1;
      var o := orders[n];
      PreWarmStep(s, ks, orders[..n], heartbeatTtl, ttl, now);
      var s1 := s.PreWarm(orders[..n], heartbeatTtl, ttl, now);
      var ks1 := RC.PreWarm(ks, orders[..n], heartbeatTtl, ttl, now);
      RegisterStep(s1, ks1, o.id, heartbeatTtl, now);
      MappingStep(s1.Track(o.id, heartbeatTtl, now), RC.Register(ks1, o.id, heartbeatTtl, now), o.id, o.courierId, ttl, now);
      assert s.PreWarm(orders, heartbeatTtl, ttl, now)
        == s1.Track(o.id, heartbeatTtl, now).SetMapping(o.id, o.courierId, ttl, now);
    }
  }

  /** Redis finds dead exactly the members the in-memory purge drops. */
  lemma DeadAgree(s: M.Store, ks: R.Keyspace, now: Time)
    requires Agree(s, ks, now)
    ensures Printed(s.Purge(now).activeOrders.Keys)
      == Printed(s.activeOrders.Keys) - RC.DeadMembers(ks, Printed(s.activeOrders.Keys), now)
  {
    var s' := s.Purge(now);
    var members := Printed(s.activeOrders.Keys);
    var dead := RC.DeadMembers(ks, members, now);
    forall id: Id | id in s.activeOrders
      ensures FormatInt(id) in dead <==> id !in s'.activeOrders
    {
      ParseInverse(id);
      assert Visible(ks, Heartbeat(id), now) == Seen(Abs(s, Heartbeat(id)), now);
      assert FormatInt(id) in members;
    }
    forall m
      ensures m in Printed(s'.activeOrders.Keys) <==> m in members - dead
    {
      if m in members - dead {
        var id :| id in s.activeOrders.Keys && FormatInt(id) == m;
        assert id in s'.activeOrders.Keys;
      }
    }
  }

  lemma PurgeHidesOnlyTheDead(s: M.Store, now: Time)
    ensures forall k: Key :: k != ActiveOrders ==> Seen(Abs(s.Purge(now), k), now) == Seen(Abs(s, k), now)
    ensures s.Purge(now).activeOrders.Keys == s.activeOrders.Keys ==> s.Purge(now) == s
  {
  }

  lemma PrintedInjective(a: set<Id>, b: set<Id>)
    requires Printed(a) == Printed(b)
    ensures a == b
  {
    PrintedParse(a);
    PrintedParse(b);
  }

  lemma RemoveInactiveCases(ks: R.Keyspace, members: set<string>, now: Time)
    requires R.Lookup(ks, Render(ActiveOrders), now) == Some(R.Entry(R.Members(members), None))
    ensures var dead := RC.DeadMembers(ks, members, now);
      RC.RemoveInactive(ks, now) ==
        if dead == {} then ks
        else if members <= dead then ks - {Render(ActiveOrders)}
        else ks[Render(ActiveOrders) := R.Entry(R.Members(members - dead), None)]
  {
  }

  /** Run without interference, Redis clean-up drops exactly the members whose heartbeat is gone. */
  lemma {:induction false} PurgeStep(s: M.Store, ks: R.Keyspace, now: Time)
    requires Agree(s, ks, now)
    ensures Agree(s.Purge(now), RC.RemoveInactive(ks, now), now)
  {
    var s' := s.Purge(now);
    var members := Printed(s.activeOrders.Keys);
    assert Visible(ks, ActiveOrders, now) == Seen(Abs(s, ActiveOrders), now);
    PurgeHidesOnlyTheDead(s, now);
    if s.activeOrders == map[] {
      assert s' == s;
    } else {
      RemoveInactiveCases(ks, members, now);
      DeadAgree(s, ks, now);
      PurgeTracked(s, ks, RC.DeadMembers(ks, members, now), now);
    }
  }

  lemma PurgeTracked(s: M.Store, ks: R.Keyspace, dead: set<string>, now: Time)
    requires Agree(s, ks, now) && s.activeOrders != map[]
    requires Printed(s.Purge(now).activeOrders.Keys) == Printed(s.activeOrders.Keys) - dead
    ensures var members := Printed(s.activeOrders.Keys);
      Agree(s.Purge(now),
            if dead == {} then ks
            else if members <= dead then ks - {Render(ActiveOrders)}
            else ks[Render(ActiveOrders) := R.Entry(R.Members(members - dead), None)],
            now)
  {
    var s' := s.Purge(now);
    var members := Printed(s.activeOrders.Keys);
    PurgeHidesOnlyTheDead(s, now);
    if dead == {} {
      assert members - dead == members;
      PrintedInjective(s'.activeOrders.Keys, s.activeOrders.Keys);
    } else if members <= dead {
      assert members - dead == Printed({});
      PrintedInjective(s'.activeOrders.Keys, {});
      AgreeAfterDelete(s, s', ks, ActiveOrders, now);
    } else {
      var m :| m in members && m !in dead;
      assert m in Printed(s'.activeOrders.Keys);
      assert s'.activeOrders != map[];
      AgreeAfterUpdate(s, s', ks, ActiveOrders, R.Entry(R.Members(members - dead), None), now);
    }
  }

  lemma AcquireStep(s: M.Store, ks: R.Keyspace, instance: string, ttl: Time, now: Time)
    requires Agree(s, ks, now) && Admissible(s, Acquire(instance, ttl), now)
    ensures var (s', acquired) := s.Acquire(LeaderKey(), instance, ttl, now);
      var (ks', acquired') := R.SetNX(ks, LeaderKey(), R.Text(instance), ttl, now);
      Agree(s', ks', now) && acquired == acquired'
  {
    assert Visible(ks, LeaderLock, now) == Seen(Abs(s, LeaderLock), now);
    var (s', acquired) := s.Acquire(LeaderKey(), instance, ttl, now);
    if acquired {
      AgreeAfterUpdate(s, s', ks, LeaderLock, R.Entry(R.Text(instance), Some(now + ttl)), now);
    }
  }

  /** Renewing one's own lock for a negative time ends it on both sides. */
  lemma RenewStep(s: M.Store, ks: R.Keyspace, instance: string, ttl: Time, now: Time)
    requires Agree(s, ks, now) && Admissible(s, Renew(instance, ttl), now)
    ensures var (s', renewed) := s.Renew(LeaderKey(), instance, ttl, now);
      var (ks', renewed') := R.EvalRenew(ks, LeaderKey(), instance, ttl, now);
      Agree(s', ks', now) && Some(renewed) == renewed'
  {
    assert Visible(ks, LeaderLock, now) == Seen(Abs(s, LeaderLock), now);
    var (s', renewed) := s.Renew(LeaderKey(), instance, ttl, now);
    if renewed && ttl > 0 {
      AgreeAfterUpdate(s, s', ks, LeaderLock, R.Entry(R.Text(instance), Some(now + ttl)), now);
    } else if renewed {
      AgreeAfterDelete(s, s', ks, LeaderLock, now);
    }
  }

  lemma ReleaseHides(s: M.Store, instance: string, now: Time)
    ensures var s' := s.Release(LeaderKey(), instance);
      && (forall k: Key :: k != LeaderLock ==> Abs(s', k) == Abs(s, k))
      && Seen(Abs(s', LeaderLock), now) == if HeldBy(s, instance, now) then None else Seen(Abs(s, LeaderLock), now)
  {
  }

  lemma ReleaseStep(s: M.Store, ks: R.Keyspace, instance: string, now: Time)
    requires Agree(s, ks, now)
    ensures var (ks', ok) := R.EvalRelease(ks, LeaderKey(), instance, now);
      Agree(s.Release(LeaderKey(), instance), ks', now) && ok
  {
    var s' := s.Release(LeaderKey(), instance);
    assert Visible(ks, LeaderLock, now) == Seen(Abs(s, LeaderLock), now);
    ReleaseHides(s, instance, now);
    if HeldBy(s, instance, now) {
      AgreeAfterDelete(s, s', ks, LeaderLock, now);
    } else {
      forall k: Key
        ensures Visible(ks, k, now) == Seen(Abs(s', k), now)
      {
        assert Visible(ks, k, now) == Seen(Abs(s, k), now);
      }
    }
  }

  lemma ReadsAgree(s: M.Store, ks: R.Keyspace, id: Id, now: Time)
    requires Agree(s, ks, now)
    ensures RC.LocationAt(ks, id, now) == RC.Ok(M.Read(s.locations, id, now))
    ensures RC.MappingAt(ks, id, now) == RC.Ok(M.Read(s.courierMaps, id, now))
  {
    assert Visible(ks, Location(id), now) == Seen(Abs(s, Location(id)), now);
    assert Visible(ks, Courier(id), now) == Seen(Abs(s, Courier(id)), now);
    if id in s.courierMaps {
      ParseInverse(s.courierMaps[id].value);
    }
  }

  lemma StatusAgrees(s: M.Store, ks: R.Keyspace, now: Time)
    requires Agree(s, ks, now)
    ensures RC.LastSyncAt(ks, now) == RC.Ok(s.lastSync)
    ensures RC.PreWarmedAt(ks, now) == RC.Ok(s.preWarmed)
    ensures R.SMembers(ks, Render(ActiveOrders), now) == Some(Printed(s.activeOrders.Keys))
    ensures ParsedIds(Printed(s.activeOrders.Keys)) == s.activeOrders.Keys
  {
    assert Visible(ks, LastSync, now) == Seen(Abs(s, LastSync), now);
    assert Visible(ks, PreWarmed, now) == Seen(Abs(s, PreWarmed), now);
    MembersAgree(s, ks, now);
    PrintedParse(s.activeOrders.Keys);
  }

  predicate IsTracking(op: Op) {
    op.Register? || op.Refresh? || op.RemoveInactive? || op.PreWarm?
  }

  lemma TrackingStep(s: M.Store, ks: R.Keyspace, op: Op, now: Time)
    requires Agree(s, ks, now) && now > 0 && Admissible(s, op, now) && IsTracking(op)
    ensures Agree(MemoryStep(s, op, now).0, RedisStep(ks, op, now).0, now)
    ensures MemoryStep(s, op, now).1 == RedisStep(ks, op, now).1
  {
    match op
    case Register(id, ttl) => RegisterStep(s, ks, id, ttl, now);
    case Refresh(id, ttl) => RefreshStep(s, ks, id, ttl, now);
    case RemoveInactive => PurgeStep(s, ks, now);
    case PreWarm(orders, heartbeatTtl, ttl) => PreWarmStep(s, ks, orders, heartbeatTtl, ttl, now);
  }

  lemma SyncStep(s: M.Store, ks: R.Keyspace, at: Time, now: Time)
    requires Agree(s, ks, now)
    ensures Agree(s.(lastSync := at), R.Set(ks, Render(LastSync), R.Stamp(at), 0, now), now)
  {
    AgreeAfterUpdate(s, s.(lastSync := at), ks, LastSync, R.Entry(R.Stamp(at), None), now);
  }

  lemma MarkStep(s: M.Store, ks: R.Keyspace, now: Time)
    requires Agree(s, ks, now)
    ensures Agree(s.(preWarmed := true), R.Set(ks, Render(PreWarmed), R.Text("1"), 0, now), now)
  {
    AgreeAfterUpdate(s, s.(preWarmed := true), ks, PreWarmed, R.Entry(R.Text("1"), None), now);
  }

  /** One call on both sides: same answer, and still in step. */
  lemma StepAgrees(s: M.Store, ks: R.Keyspace, op: Op, now: Time)
    requires Agree(s, ks, now) && now > 0 && Admissible(s, op, now)
    ensures Agree(MemoryStep(s, op, now).0, RedisStep(ks, op, now).0, now)
    ensures MemoryStep(s, op, now).1 == RedisStep(ks, op, now).1
  {
    if IsTracking(op) {
      TrackingStep(s, ks, op, now);
    } else {
      match op
      case SetLocation(location, ttl) => LocationStep(s, ks, location, ttl, now);
      case SetLocations(batch, ttl) => LocationsStep(s, ks, batch, ttl, now);
      case SetMapping(id, courierId, ttl) => MappingStep(s, ks, id, courierId, ttl, now);
      case SetSync(at) => SyncStep(s, ks, at, now);
      case MarkPreWarmed => MarkStep(s, ks, now);
      case Acquire(instance, ttl) => AcquireStep(s, ks, instance, ttl, now);
      case Renew(instance, ttl) => RenewStep(s, ks, instance, ttl, now);
      case Release(instance) => ReleaseStep(s, ks, instance, now);
      case GetLocation(id) => ReadsAgree(s, ks, id, now);
      case GetMapping(id) => ReadsAgree(s, ks, id, now);
      case _ => StatusAgrees(s, ks, now);
    }
  }

  lemma HeartbeatDiffers(s: M.Store, ks: R.Keyspace, id: Id, now: Time)
    requires R.Lookup(ks, Render(Heartbeat(id)), now) == Some(R.Entry(R.Text("1"), None))
    ensures !Agree(s, ks, now)
  {
    assert Visible(ks, Heartbeat(id), now) != Seen(Abs(s, Heartbeat(id)), now);
  }

  lemma PreWarmDiffers(s: M.Store, ks: R.Keyspace, orders: seq<Order>, heartbeatTtl: Time, ttl: Time, now: Time)
    requires orders != [] && heartbeatTtl <= 0
    ensures !Agree(s, RC.PreWarm(ks, orders, heartbeatTtl, ttl, now), now)
  {
    var o := orders[|orders| - 1];
    if Render(Heartbeat(o.id)) == Render(Courier(o.id)) {
      RenderInjective(Heartbeat(o.id), Courier(o.id));
    }
    HeartbeatDiffers(s, RC.PreWarm(ks, orders, heartbeatTtl, ttl, now), o.id, now);
  }

  /** A lock acquired without a positive TTL lives forever on Redis; one renewed for no time lives on in memory only. */
  lemma LockDiffers(s: M.Store, ks: R.Keyspace, op: Op, now: Time)
    requires Agree(s, ks, now) && !Admissible(s, op, now) && (op.Acquire? || op.Renew?)
    ensures Agree(MemoryStep(s, op, now).0, RedisStep(ks, op, now).0, now)
      ==> MemoryStep(s, op, now).1 != RedisStep(ks, op, now).1
  {
    assert Visible(ks, LeaderLock, now) == Seen(Abs(s, LeaderLock), now);
    var s', ks' := MemoryStep(s, op, now).0, RedisStep(ks, op, now).0;
    if op.Renew? || !HeldBy(s, op.instance, now) {
      assert Visible(ks', LeaderLock, now) != Seen(Abs(s', LeaderLock), now);
    }
  }

  /**
   Exactly the admissible calls keep the caches in step with the same answer: positive
   heartbeat and lock TTLs where one is set, a refresh of a tracked order only, and no acquire
   by the present owner. All reads, clean-ups, locations, mappings, markers and releases qualify.
   */
  lemma StepAgreesIff(s: M.Store, ks: R.Keyspace, op: Op, now: Time)
    requires Agree(s, ks, now) && now > 0
    ensures Admissible(s, op, now) <==>
      Agree(MemoryStep(s, op, now).0, RedisStep(ks, op, now).0, now)
      && MemoryStep(s, op, now).1 == RedisStep(ks, op, now).1
  {
    if Admissible(s, op, now) {
      StepAgrees(s, ks, op, now);
    } else {
      match op
      case Register(id, ttl) => HeartbeatDiffers(s.Track(id, ttl, now), RC.Register(ks, id, ttl, now), id, now);
      case Refresh(id, ttl) =>
        if ttl > 0 {
          RefreshLosesUntracked(s, ks, id, ttl, now);
        } else {
          HeartbeatDiffers(s.Track(id, ttl, now), RC.Beat(ks, id, ttl, now), id, now);
        }
      case PreWarm(orders, heartbeatTtl, ttl) =>
        PreWarmDiffers(s.PreWarm(orders, heartbeatTtl, ttl, now), ks, orders, heartbeatTtl, ttl, now);
      case Acquire(_, _) => LockDiffers(s, ks, op, now);
      case Renew(_, _) => LockDiffers(s, ks, op, now);
    }
  }

  /** A call and the clock reading at which it runs. */
  datatype Call = Call(now: Time, op: Op)

  function MemoryRun(s: M.Store, calls: seq<Call>): seq<Out>
    decreases |calls|
  {
    if calls == [] then []
    else
      var (s', out) := MemoryStep(s, calls[0].op, calls[0].now);
      [out] + MemoryRun(s', calls[1..])
  }

  function RedisRun(ks: R.Keyspace, calls: seq<Call>): seq<Out>
    decreases |calls|
  {
    if calls == [] then []
    else
      var (ks', out) := RedisStep(ks, calls[0].op, calls[0].now);
      [out] + RedisRun(ks', calls[1..])
  }

  /** The clock never runs back, and every call is admissible when it is made. */
  predicate AdmissibleRun(s: M.Store, calls: seq<Call>, now: Time)
    decreases |calls|
  {
    calls == [] ||
    (now <= calls[0].now && 0 < calls[0].now && Admissible(s, calls[0].op, calls[0].now)
     && AdmissibleRun(MemoryStep(s, calls[0].op, calls[0].now).0, calls[1..], calls[0].now))
  }

  lemma {:induction false} RunsAgreeFrom(s: M.Store, ks: R.Keyspace, calls: seq<Call>, now: Time)
    requires Agree(s, ks, now) && AdmissibleRun(s, calls, now)
    ensures MemoryRun(s, calls) == RedisRun(ks, calls)
    decreases |calls|
  {
    if calls != [] {
      var (t, op) := (calls[0].now, calls[0].op);
      AgreeLater(s, ks, now, t);
      StepAgrees(s, ks, op, t);
      RunsAgreeFrom(MemoryStep(s, op, t).0, RedisStep(ks, op, t).0, calls[1..], t);
    }
  }

  /** From empty caches, both implementations answer every admissible run alike; no Redis call ever errs. */
  lemma RunsAgree(calls: seq<Call>)
    requires AdmissibleRun(M.EMPTY_STORE, calls, ZERO_TIME)
    ensures MemoryRun(M.EMPTY_STORE, calls) == RedisRun(map[], calls)
  {
    RunsAgreeFrom(M.EMPTY_STORE, map[], calls, ZERO_TIME);
  }

  /** What was written `now` for this TTL is read `later`. */
  function Kept<T>(x: T, ttl: Time, now: Time, later: Time): Option<T> {
    Only(ttl <= 0 || later <= now + ttl, x)
  }

  /** What a write shows to a later read, in memory: the value itself until strictly past its TTL. */
  lemma MemoryReadsBack(s: M.Store, location: CourierLocation, id: Id, courierId: Id, ttl: Time, now: Time, later: Time)
    requires 0 < now <= later
    ensures MemoryStep(MemoryStep(s, SetLocation(location, ttl), now).0, GetLocation(location.orderId), later).1
      == Located(Kept(location, ttl, now, later))
    ensures MemoryStep(MemoryStep(s, SetMapping(id, courierId, ttl), now).0, GetMapping(id), later).1
      == Mapped(Kept(courierId, ttl, now, later))
  {
  }

  lemma MemoryReadsBackMarks(s: M.Store, id: Id, ttl: Time, at: Time, now: Time, later: Time)
    ensures MemoryStep(MemoryStep(s, SetSync(at), now).0, GetSync, later).1 == Synced(at)
    ensures MemoryStep(MemoryStep(s, MarkPreWarmed, now).0, ReadPreWarmed, later).1 == Flag(true)
    ensures MemoryStep(MemoryStep(s, Register(id, ttl), now).0, ActiveIds, later).1 == Ids(s.activeOrders.Keys + {id})
  {
  }

  /** And on Redis, whatever else the keyspace holds. */
  lemma RedisReadsBack(ks: R.Keyspace, location: CourierLocation, id: Id, courierId: Id, ttl: Time, now: Time, later: Time)
    requires 0 < now <= later
    ensures RedisStep(RedisStep(ks, SetLocation(location, ttl), now).0, GetLocation(location.orderId), later).1
      == Located(Kept(location, ttl, now, later))
    ensures RedisStep(RedisStep(ks, SetMapping(id, courierId, ttl), now).0, GetMapping(id), later).1
      == Mapped(Kept(courierId, ttl, now, later))
  {
    ParseInverse(courierId);
  }

  lemma RedisReadsBackMarks(ks: R.Keyspace, at: Time, now: Time, later: Time)
    ensures RedisStep(RedisStep(ks, SetSync(at), now).0, GetSync, later).1 == Synced(at)
    ensures RedisStep(RedisStep(ks, MarkPreWarmed, now).0, ReadPreWarmed, later).1 == Flag(true)
  {
  }

  lemma RefreshLosesUntracked(s: M.Store, ks: R.Keyspace, id: Id, ttl: Time, now: Time)
    requires Agree(s, ks, now) && id !in s.activeOrders
    ensures !Agree(s.Track(id, ttl, now), RC.Beat(ks, id, ttl, now), now)
  {
    var s', ks' := s.Track(id, ttl, now), RC.Beat(ks, id, ttl, now);
    assert id in s'.activeOrders.Keys;
    if Agree(s', ks', now) {
      MembersAgree(s', ks', now);
      MembersAgree(s, ks, now);
      if Render(ActiveOrders) == Render(Heartbeat(id)) {
        RenderInjective(ActiveOrders, Heartbeat(id));
      }
      PrintedInjective(s.activeOrders.Keys, s'.activeOrders.Keys);
    }
  }

  /** Refresh: Redis stays in step if and only if the order was tracked. */
  lemma RefreshAgreesIff(s: M.Store, ks: R.Keyspace, id: Id, ttl: Time, now: Time)
    requires Agree(s, ks, now) && ttl > 0
    ensures Agree(MemoryStep(s, Refresh(id, ttl), now).0, RedisStep(ks, Refresh(id, ttl), now).0, now)
      <==> id in s.activeOrders
  {
    if id in s.activeOrders {
      RefreshStep(s, ks, id, ttl, now);
    } else {
      RefreshLosesUntracked(s, ks, id, ttl, now);
    }
  }

  /** Acquire: the answers agree if and only if the caller does not hold the live lock already. */
  lemma AcquireAgreesIff(s: M.Store, ks: R.Keyspace, instance: string, ttl: Time, now: Time)
    requires Agree(s, ks, now)
    ensures MemoryStep(s, Acquire(instance, ttl), now).1 == RedisStep(ks, Acquire(instance, ttl), now).1
      <==> !HeldBy(s, instance, now)
  {
    assert Visible(ks, LeaderLock, now) == Seen(Abs(s, LeaderLock), now);
  }
}
