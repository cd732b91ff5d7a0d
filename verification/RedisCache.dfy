/** The Redis-backed cache: key templates, tracking set, heartbeats, pipelines and lock scripts. */
module RedisCache {
  import opened Domain
  import opened Keys
  import opened Redis

  datatype Result<+T> = Ok(value: T) | Failed

  function LocationAt(ks: Keyspace, orderId: Id, now: Time): Result<Option<CourierLocation>> {
    match Get(ks, Render(Location(orderId)), now)
    case Nil => Ok(None)
    case Found(Json(location)) => Ok(Some(location))
    case _ => Failed
  }

  function MappingAt(ks: Keyspace, orderId: Id, now: Time): Result<Option<Id>> {
    match Get(ks, Render(Courier(orderId)), now)
    case Nil => Ok(None)
    case Found(Text(text)) => if ParseInt(text).Some? then Ok(ParseInt(text)) else Failed
    case _ => Failed
  }

  function SetLocation(ks: Keyspace, location: CourierLocation, ttl: Time, now: Time): Keyspace {
    Set(ks, Render(Location(location.orderId)), Json(location), ttl, now)
  }

  function SetLocations(ks: Keyspace, batch: seq<CourierLocation>, ttl: Time, now: Time): Keyspace {
    if batch == [] then ks
    else SetLocation(SetLocations(ks, batch[..|batch| - 1], ttl, now), batch[|batch| - 1], ttl, now)
  }

  function SetMapping(ks: Keyspace, orderId: Id, courierId: Id, ttl: Time, now: Time): Keyspace {
    Set(ks, Render(Courier(orderId)), Text(FormatInt(courierId)), ttl, now)
  }

  function Beat(ks: Keyspace, orderId: Id, ttl: Time, now: Time): Keyspace {
    Set(ks, Render(Heartbeat(orderId)), Text("1"), ttl, now)
  }

  function Register(ks: Keyspace, orderId: Id, ttl: Time, now: Time): Keyspace {
    Beat(SAdd(ks, Render(ActiveOrders), FormatInt(orderId), now), orderId, ttl, now)
  }

  function PreWarm(ks: Keyspace, orders: seq<Order>, heartbeatTtl: Time, mappingTtl: Time, now: Time): Keyspace {
    if orders == [] then ks
    else
      var o := orders[|orders| - 1];
      var before := PreWarm(ks, orders[..|orders| - 1], heartbeatTtl, mappingTtl, now);
      SetMapping(Register(before, o.id, heartbeatTtl, now), o.id, o.courierId, mappingTtl, now)
  }

  /** The members that parse as ids. */
  function Parseable(members: set<string>): set<string> {
    set m | m in members && ParseInt(m).Some?
  }

  /** A member of the tracking set is dead when it is an id whose heartbeat key is gone. */
  predicate IsDead(ks: Keyspace, member: string, now: Time) {
    ParseInt(member).Some? && !Exists(ks, Render(Heartbeat(ParseInt(member).value)), now)
  }

  function DeadMembers(ks: Keyspace, members: set<string>, now: Time): set<string> {
    set m | m in members && IsDead(ks, m, now)
  }

  /** The members of the tracking set. */
  function Tracked(ks: Keyspace, now: Time): set<string> {
    var members := SMembers(ks, Render(ActiveOrders), now);
    if members.Some? then members.value else {}
  }

  /** Clean-up without interference. */
  function RemoveInactive(ks: Keyspace, now: Time): Keyspace {
    match SMembers(ks, Render(ActiveOrders), now)
    case None => ks
    case Some(members) =>
      var dead := DeadMembers(ks, members, now);
      if dead == {} then ks else SRem(ks, Render(ActiveOrders), dead, now)
  }

  lemma OrderKeepsType(ks: Keyspace, o: Order, heartbeatTtl: Time, mappingTtl: Time, now: Time)
    ensures SMembers(SetMapping(Register(ks, o.id, heartbeatTtl, now), o.id, o.courierId, mappingTtl, now), Render(ActiveOrders), now).Some?
      <==> SMembers(ks, Render(ActiveOrders), now).Some?
  {
    RenderDistinct();
  }

  lemma ParseableOneMore(members: set<string>, m: string)
    requires m !in members
    ensures |Parseable(members + {m})| == |Parseable(members)| + (if ParseInt(m).Some? then 1 else 0)
  {
    assert Parseable(members + {m}) == if ParseInt(m).Some? then Parseable(members) + {m} else Parseable(members);
  }

  function LastSyncAt(ks: Keyspace, now: Time): Result<Time> {
    match Get(ks, Render(LastSync), now)
    case Nil => Ok(ZERO_TIME)
    case Found(Stamp(at)) => Ok(at)
    case _ => Failed
  }

  function PreWarmedAt(ks: Keyspace, now: Time): Result<bool> {
    match Get(ks, Render(PreWarmed), now)
    case Nil => Ok(false)
    case Found(v) => Ok(v == Text("1"))
    case WrongType => Failed
  }

  /** The repository; `keys` is the content of the server it talks to. */
  class RedisCacheRepository {
    var keys: Keyspace

    constructor (keys: Keyspace)
      ensures this.keys == keys
    {
      this.keys := keys;
    }

    method GetOrderLocation(orderId: Id, now: Time) returns (r: Result<Option<CourierLocation>>)
      ensures r == LocationAt(keys, orderId, now)
    {
      var reply := Get(keys, Render(Location(orderId)), now);
      if reply == Nil {
        return Ok(None);
      }
      if reply.WrongType? || !reply.value.Json? {
        return Failed;
      }
      return Ok(Some(reply.value.location));
    }

    method SetOrderLocation(location: CourierLocation, ttl: Time, now: Time)
      modifies this
      ensures keys == SetLocation(old(keys), location, ttl, now)
    {
      keys := Set(keys, Render(Location(location.orderId)), Json(location), ttl, now);
    }

    method SetOrderLocationsBatch(batch: seq<CourierLocation>, ttl: Time, now: Time)
      modifies this
      ensures keys == SetLocations(old(keys), batch, ttl, now)
    {
      if |batch| == 0 {
        return;
      }
      for i := 0 to |batch|
        invariant keys == SetLocations(old(keys), batch[..i], ttl, now)
      {
        assert batch[..i + 1][..i] == batch[..i];
        keys := Set(keys, Render(Location(batch[i].orderId)), Json(batch[i]), ttl, now);
      }
      assert batch[..|batch|] == batch;
    }

    method GetOrderCourierMapping(orderId: Id, now: Time) returns (r: Result<Option<Id>>)
      ensures r == MappingAt(keys, orderId, now)
    {
      var reply := Get(keys, Render(Courier(orderId)), now);
      if reply == Nil {
        return Ok(None);
      }
      if reply.WrongType? || !reply.value.Text? {
        return Failed;
      }
      var courierId := ParseInt(reply.value.text);
      return if courierId.Some? then Ok(courierId) else Failed;
    }

    method SetOrderCourierMapping(orderId: Id, courierId: Id, ttl: Time, now: Time)
      modifies this
      ensures keys == SetMapping(old(keys), orderId, courierId, ttl, now)
    {
      keys := Set(keys, Render(Courier(orderId)), Text(FormatInt(courierId)), ttl, now);
    }

    method RegisterActiveOrder(orderId: Id, heartbeatTtl: Time, now: Time) returns (ok: bool)
      modifies this
      ensures keys == Register(old(keys), orderId, heartbeatTtl, now)
      ensures ok <==> SMembers(old(keys), Render(ActiveOrders), now).Some?
    {
      ok := SMembers(keys, Render(ActiveOrders), now).Some?;
      keys := SAdd(keys, Render(ActiveOrders), FormatInt(orderId), now);
      keys := Set(keys, Render(Heartbeat(orderId)), Text("1"), heartbeatTtl, now);
    }

    /** Members that are not decimal ids are skipped. */
    method GetActiveOrderIDs(now: Time) returns (r: Result<seq<Id>>)
      ensures r.Failed? <==> SMembers(keys, Render(ActiveOrders), now).None?
      ensures r.Ok? ==> forall id: Id ::
        id in r.value <==> exists m :: m in SMembers(keys, Render(ActiveOrders), now).value && ParseInt(m) == Some(id)
      ensures r.Ok? ==> |r.value| == |Parseable(SMembers(keys, Render(ActiveOrders), now).value)|
    {
      var members := SMembers(keys, Render(ActiveOrders), now);
      if members.None? {
        return Failed;
      }
      var ids: seq<Id> := [];
      var rest := members.value;
      while rest != {}
        invariant rest <= members.value
        invariant forall id: Id :: id in ids <==> exists m :: m in members.value - rest && ParseInt(m) == Some(id)
        invariant |ids| == |Parseable(members.value - rest)|
        decreases rest
      {
        var m :| m in rest;
        ghost var done := members.value - rest;
        rest := rest - {m};
        assert members.value - rest == done + {m};
        var id := ParseInt(m);
        ParseableOneMore(done, m);
        if id.Some? {
          ids := ids + [id.value];
        }
      }
      assert members.value - rest == members.value;
      return Ok(ids);
    }

    method RefreshOrderHeartbeat(orderId: Id, heartbeatTtl: Time, now: Time)
      modifies this
      ensures keys == Beat(old(keys), orderId, heartbeatTtl, now)
    {
      keys := Set(keys, Render(Heartbeat(orderId)), Text("1"), heartbeatTtl, now);
    }

    /** SMEMBERS, a pipeline of EXISTS, then one SREM. */
    method RemoveInactiveOrders(now: Time) returns (ok: bool)
      modifies this
      ensures ok == SMembers(old(keys), Render(ActiveOrders), now).Some?
      ensures keys == RemoveInactive(old(keys), now)
    {
      var members := SMembers(keys, Render(ActiveOrders), now);
      if members.None? {
        return false;
      }
      if members.value == {} {
        return true;
      }
      var cmds: map<string, bool> := map[];
      var rest := members.value;
      while rest != {}
        invariant rest <= members.value
        invariant forall m :: m in cmds <==> m in members.value - rest && ParseInt(m).Some?
        invariant forall m :: m in cmds ==> cmds[m] == !IsDead(keys, m, now)
        decreases rest
      {
        var m :| m in rest;
        rest := rest - {m};
        var id := ParseInt(m);
        if id.None? {
          continue;
        }
        cmds := cmds[m := Exists(keys, Render(Heartbeat(id.value)), now)];
      }
      var toRemove: set<string> := {};
      rest := cmds.Keys;
      while rest != {}
        invariant rest <= cmds.Keys
        invariant forall m :: m in toRemove <==> m in cmds.Keys - rest && !cmds[m]
        decreases rest
      {
        var m :| m in rest;
        rest := rest - {m};
        if !cmds[m] {
          toRemove := toRemove + {m};
        }
      }
      assert toRemove == DeadMembers(keys, members.value, now);
      if |toRemove| > 0 {
        keys := SRem(keys, Render(ActiveOrders), toRemove, now);
      }
      return true;
    }

    method SetLastSync(timestamp: Time, now: Time)
      modifies this
      ensures keys == Set(old(keys), Render(LastSync), Stamp(timestamp), 0, now)
    {
      keys := Set(keys, Render(LastSync), Stamp(timestamp), 0, now);
    }

    method GetLastSync(now: Time) returns (r: Result<Time>)
      ensures r == LastSyncAt(keys, now)
    {
      var reply := Get(keys, Render(LastSync), now);
      if reply == Nil {
        return Ok(ZERO_TIME);
      }
      if reply.WrongType? || !reply.value.Stamp? {
        return Failed;
      }
      return Ok(reply.value.at);
    }

    /** Granted if and only if nobody holds the key; the key then shows the caller for the TTL, and no longer. */
    method AcquireLeaderLock(key: string, instance: string, ttl: Time, now: Time) returns (acquired: bool)
      modifies this
      ensures acquired <==> !Exists(old(keys), key, now)
      ensures keys == if acquired then old(keys)[key := Entry(Text(instance), Only(ttl > 0, now + ttl))] else old(keys)
      ensures acquired ==> forall t :: now <= t ==>
        Get(keys, key, t) == if ttl <= 0 || t <= now + ttl then Found(Text(instance)) else Nil
    {
      var r := SetNX(keys, key, Text(instance), ttl, now);
      keys := r.0;
      return r.1;
    }

    /** Granted if and only if the key shows the caller; nothing changes otherwise. */
    method RenewLeaderLock(key: string, instance: string, ttl: Time, now: Time) returns (renewed: Result<bool>)
      modifies this
      ensures renewed == match Get(old(keys), key, now)
        case WrongType => Failed
        case Nil => Ok(false)
        case Found(v) => Ok(v == Text(instance))
      ensures renewed != Ok(true) ==> keys == old(keys)
      ensures renewed == Ok(true) ==> keys - {key} == old(keys) - {key}
      ensures renewed == Ok(true) ==> forall t :: now <= t ==>
        Get(keys, key, t) == if 0 < ttl && t <= now + ttl then Found(Text(instance)) else Nil
    {
      var r := EvalRenew(keys, key, instance, ttl, now);
      keys := r.0;
      return if r.1.None? then Failed else Ok(r.1.value);
    }

    /** Deletes the key if and only if it shows the caller. */
    method ReleaseLeaderLock(key: string, instance: string, now: Time) returns (ok: bool)
      modifies this
      ensures ok <==> Get(old(keys), key, now) != WrongType
      ensures keys == if Get(old(keys), key, now) == Found(Text(instance)) then old(keys) - {key} else old(keys)
    {
      var r := EvalRelease(keys, key, instance, now);
      keys := r.0;
      return r.1;
    }

    /** The tracking key of another type fails its SADD commands; the rest of the pipeline still runs. */
    method PreWarmOrders(orders: seq<Order>, heartbeatTtl: Time, mappingTtl: Time, now: Time) returns (ok: bool)
      modifies this
      ensures keys == PreWarm(old(keys), orders, heartbeatTtl, mappingTtl, now)
      ensures ok <==> orders == [] || SMembers(old(keys), Render(ActiveOrders), now).Some?
    {
      if |orders| == 0 {
        return true;
      }
      ok := true;
      for i := 0 to |orders|
        invariant keys == PreWarm(old(keys), orders[..i], heartbeatTtl, mappingTtl, now)
        invariant ok <==> i == 0 || SMembers(old(keys), Render(ActiveOrders), now).Some?
        invariant SMembers(keys, Render(ActiveOrders), now).Some? <==> SMembers(old(keys), Render(ActiveOrders), now).Some?
      {
        assert orders[..i + 1][..i] == orders[..i];
        var o := orders[i];
        OrderKeepsType(keys, o, heartbeatTtl, mappingTtl, now);
        ok := ok && SMembers(keys, Render(ActiveOrders), now).Some?;
        keys := SAdd(keys, Render(ActiveOrders), FormatInt(o.id), now);
        keys := Set(keys, Render(Heartbeat(o.id)), Text("1"), heartbeatTtl, now);
        keys := Set(keys, Render(Courier(o.id)), Text(FormatInt(o.courierId)), mappingTtl, now);
      }
      assert orders[..|orders|] == orders;
    }

    method SetPreWarmed(now: Time)
      modifies this
      ensures keys == Set(old(keys), Render(PreWarmed), Text("1"), 0, now)
    {
      keys := Set(keys, Render(PreWarmed), Text("1"), 0, now);
    }

    method IsPreWarmed(now: Time) returns (r: Result<bool>)
      ensures r == PreWarmedAt(keys, now)
    {
      var reply := Get(keys, Render(PreWarmed), now);
      if reply == Nil {
        return Ok(false);
      }
      if reply.WrongType? {
        return Failed;
      }
      return Ok(reply.value == Text("1"));
    }
  }
}
