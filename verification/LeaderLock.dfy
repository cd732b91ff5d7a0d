/** The expiring leader lock: what any history of calls by any instances can do to it. */
module LeaderLock {
  import opened Domain
  import M = MemoryCache
  import R = Redis

  datatype Lease = Lease(owner: string, expiresAt: Time)

  datatype Kind = Acquire | Renew | Release

  /** One lock call: who made it, when, and the TTL asked for (unused by a release). */
  datatype Event = Event(kind: Kind, who: string, at: Time, ttl: Time) {
    function Lasting(): Lease {
      Lease(who, at + ttl)
    }
  }

  function Live(cell: Option<Lease>, now: Time): Option<Lease> {
    if cell.Some? && now <= cell.value.expiresAt then cell else None
  }

  /**
   The lock after a call, and whether the call was granted. An acquire by the present owner
   is granted by the in-memory cache (`reentrant`) and refused by Redis.
   */
  function Step(cell: Option<Lease>, e: Event, reentrant: bool): (Option<Lease>, bool) {
    var live := Live(cell, e.at);
    var mine := live.Some? && live.value.owner == e.who;
    match e.kind
    case Acquire => if live.None? || (reentrant && mine) then (Some(e.Lasting()), true) else (live, false)
    case Renew => if mine then (Some(e.Lasting()), true) else (live, false)
    case Release => (if mine then None else live, false)
  }

  function MemoryCell(s: M.Store, key: string): Option<Lease> {
    if key in s.leaderLocks then Some(Lease(s.leaderLocks[key].owner, s.leaderLocks[key].expiresAt)) else None
  }

  /** The in-memory lock call of an event, and whether it was granted. */
  function MemoryCall(s: M.Store, key: string, e: Event): (M.Store, bool) {
    match e.kind
    case Acquire => s.Acquire(key, e.who, e.ttl, e.at)
    case Renew => s.Renew(key, e.who, e.ttl, e.at)
    case Release => (s.Release(key, e.who), false)
  }

  /** The in-memory lock operations are this step, as seen at any moment from the call on. */
  lemma MemoryRefines(s: M.Store, key: string, e: Event, later: Time)
    requires e.at <= later
    ensures var (cell', granted) := Step(MemoryCell(s, key), e, true);
      var (s', r) := MemoryCall(s, key, e);
      MemoryCellIs(s', key, cell', later) && r == granted
  {
  }

  predicate MemoryCellIs(s: M.Store, key: string, cell: Option<Lease>, now: Time) {
    Live(MemoryCell(s, key), now) == Live(cell, now)
  }

  /** A lock key only ever holds an instance id with a deadline. */
  predicate IsLockKey(ks: R.Keyspace, key: string) {
    key in ks ==> ks[key].value.Text? && ks[key].deadline.Some?
  }

  function RedisCell(ks: R.Keyspace, key: string): Option<Lease>
    requires IsLockKey(ks, key)
  {
    if key in ks then Some(Lease(ks[key].value.text, ks[key].deadline.value)) else None
  }

  predicate RedisCellIs(ks: R.Keyspace, key: string, cell: Option<Lease>, now: Time) {
    IsLockKey(ks, key) && Live(RedisCell(ks, key), now) == Live(cell, now)
  }

  /** The Redis lock call of an event; None is an error reply. */
  function RedisCall(ks: R.Keyspace, key: string, e: Event): (R.Keyspace, Option<bool>) {
    match e.kind
    case Acquire => var (ks', r) := R.SetNX(ks, key, R.Text(e.who), e.ttl, e.at); (ks', Some(r))
    case Renew => R.EvalRenew(ks, key, e.who, e.ttl, e.at)
    case Release => var (ks', ok) := R.EvalRelease(ks, key, e.who, e.at); (ks', if ok then Some(false) else None)
  }

  /** So are SET NX and the two scripts, except that the present owner may not re-acquire. */
  lemma RedisRefines(ks: R.Keyspace, key: string, e: Event, later: Time)
    requires IsLockKey(ks, key) && e.at <= later && e.ttl > 0
    ensures var (cell', granted) := Step(RedisCell(ks, key), e, false);
      var (ks', r) := RedisCall(ks, key, e);
      RedisCellIs(ks', key, cell', later) && r == Some(granted)
  {
  }

  /** The lock after a whole history that starts without one. */
  function Cell(log: seq<Event>, reentrant: bool): Option<Lease> {
    if log == [] then None
    else Step(Cell(log[..|log| - 1], reentrant), log[|log| - 1], reentrant).0
  }

  predicate Granted(log: seq<Event>, reentrant: bool, i: nat)
    requires i < |log|
  {
    Step(Cell(log[..i], reentrant), log[i], reentrant).1
  }

  /** The clock never runs back. */
  predicate Timed(log: seq<Event>) {
    forall i, j :: 0 <= i <= j < |log| ==> log[i].at <= log[j].at
  }

  function MemoryAfter(s: M.Store, key: string, log: seq<Event>): M.Store {
    if log == [] then s else MemoryCall(MemoryAfter(s, key, log[..|log| - 1]), key, log[|log| - 1]).0
  }

  function RedisAfter(ks: R.Keyspace, key: string, log: seq<Event>): R.Keyspace {
    if log == [] then ks else RedisCall(RedisAfter(ks, key, log[..|log| - 1]), key, log[|log| - 1]).0
  }

  /** A call reads no more of the lock than its live lease. */
  lemma OnlyTheLiveCounts(cell: Option<Lease>, other: Option<Lease>, e: Event, reentrant: bool)
    requires Live(cell, e.at) == Live(other, e.at)
    ensures Step(cell, e, reentrant) == Step(other, e, reentrant)
  {
  }

  /** After a whole history of calls on the in-memory cache, its lock is the history's. */
  lemma {:induction false} MemoryFollows(s: M.Store, key: string, log: seq<Event>, now: Time)
    requires key !in s.leaderLocks && Timed(log) && (log != [] ==> log[|log| - 1].at <= now)
    ensures MemoryCellIs(MemoryAfter(s, key, log), key, Cell(log, true), now)
  {
    if log != [] {
      var n := |log| - 1;
      var before := MemoryAfter(s, key, log[..n]);
      MemoryFollows(s, key, log[..n], log[n].at);
      OnlyTheLiveCounts(MemoryCell(before, key), Cell(log[..n], true), log[n], true);
      MemoryRefines(before, key, log[n], now);
    }
  }

  /** And every call in it is answered as the history says. */
  lemma {:induction false} MemoryAnswers(s: M.Store, key: string, log: seq<Event>, i: nat)
    requires key !in s.leaderLocks && Timed(log) && i < |log|
    ensures MemoryCall(MemoryAfter(s, key, log[..i]), key, log[i]).1 == Granted(log, true, i)
  {
    var before := MemoryAfter(s, key, log[..i]);
    MemoryFollows(s, key, log[..i], log[i].at);
    OnlyTheLiveCounts(MemoryCell(before, key), Cell(log[..i], true), log[i], true);
    MemoryRefines(before, key, log[i], log[i].at);
  }

  predicate PositiveTtls(log: seq<Event>) {
    forall i :: 0 <= i < |log| ==> log[i].ttl > 0
  }

  lemma {:induction false} RedisFollows(ks: R.Keyspace, key: string, log: seq<Event>, now: Time)
    requires key !in ks && Timed(log) && PositiveTtls(log) && (log != [] ==> log[|log| - 1].at <= now)
    ensures RedisCellIs(RedisAfter(ks, key, log), key, Cell(log, false), now)
  {
    if log != [] {
      var n := |log| - 1;
      var before := RedisAfter(ks, key, log[..n]);
      RedisFollows(ks, key, log[..n], log[n].at);
      OnlyTheLiveCounts(RedisCell(before, key), Cell(log[..n], false), log[n], false);
      RedisRefines(before, key, log[n], now);
    }
  }

  lemma {:induction false} RedisAnswers(ks: R.Keyspace, key: string, log: seq<Event>, i: nat)
    requires key !in ks && Timed(log) && PositiveTtls(log) && i < |log|
    ensures RedisCall(RedisAfter(ks, key, log[..i]), key, log[i]).1 == Some(Granted(log, false, i))
  {
    var before := RedisAfter(ks, key, log[..i]);
    RedisFollows(ks, key, log[..i], log[i].at);
    OnlyTheLiveCounts(RedisCell(before, key), Cell(log[..i], false), log[i], false);
    RedisRefines(before, key, log[i], log[i].at);
  }

  /** Grant m still counts after the first n calls: its owner was neither granted again nor released since. */
  predicate InForce(log: seq<Event>, reentrant: bool, n: nat, m: nat)
    requires n <= |log|
  {
    m < n && Granted(log, reentrant, m) &&
    forall k :: m < k < n && log[k].who == log[m].who ==> !Granted(log, reentrant, k) && !log[k].kind.Release?
  }

  lemma CellOfPrefix(log: seq<Event>, reentrant: bool, n: nat)
    requires n < |log|
    ensures Cell(log[..n + 1], reentrant) == Step(Cell(log[..n], reentrant), log[n], reentrant).0
  {
    assert log[..n + 1][..n] == log[..n];
  }

  lemma LiveLeaseStays(lease: Lease, e: Event, reentrant: bool)
    requires e.at <= lease.expiresAt
    requires e.who != lease.owner || (!Step(Some(lease), e, reentrant).1 && !e.kind.Release?)
    ensures Step(Some(lease), e, reentrant).0 == Some(lease)
  {
  }

  /** A grant in force whose time has not run out is the lock. */
  lemma {:induction false} GrantIsTheLock(log: seq<Event>, reentrant: bool, n: nat, m: nat)
    requires Timed(log) && n <= |log| && InForce(log, reentrant, n, m)
    requires log[n - 1].at <= log[m].at + log[m].ttl
    ensures Cell(log[..n], reentrant) == Some(log[m].Lasting())
    decreases n
  {
    CellOfPrefix(log, reentrant, n - 1);
    if m < n - 1 {
      GrantIsTheLock(log, reentrant, n - 1, m);
      assert log[n - 1].who == log[m].who ==> !Granted(log, reentrant, n - 1);
      LiveLeaseStays(log[m].Lasting(), log[n - 1], reentrant);
    }
  }

  lemma RefusedCallKeeps(cell: Option<Lease>, e: Event, reentrant: bool)
    requires !Step(cell, e, reentrant).1 && Step(cell, e, reentrant).0.Some?
    ensures Step(cell, e, reentrant).0 == cell && !(e.kind.Release? && e.who == cell.value.owner)
  {
  }

  /** Whatever the lock shows was granted, and that grant is still in force. */
  lemma {:induction false} LockWasGranted(log: seq<Event>, reentrant: bool, n: nat) returns (m: nat)
    requires n <= |log| && Cell(log[..n], reentrant).Some?
    ensures m < n && InForce(log, reentrant, n, m) && Cell(log[..n], reentrant) == Some(log[m].Lasting())
    decreases n
  {
    assert n > 0;
    CellOfPrefix(log, reentrant, n - 1);
    if Granted(log, reentrant, n - 1) {
      m := n - 1;
    } else {
      RefusedCallKeeps(Cell(log[..n - 1], reentrant), log[n - 1], reentrant);
      m := LockWasGranted(log, reentrant, n - 1);
    }
  }

  /**
   The lock, as a state, is the history's one grant that is in force and unexpired: at any
   moment after n calls there is at most one such grant, and the lock shows exactly it.
   */
  lemma {:induction false} LockIsTheValidGrant(log: seq<Event>, reentrant: bool, now: Time, lease: Lease)
    requires Timed(log) && (log != [] ==> log[|log| - 1].at <= now)
    ensures Live(Cell(log, reentrant), now) == Some(lease) <==>
      exists m :: 0 <= m < |log| && InForce(log, reentrant, |log|, m) && log[m].Lasting() == lease && now <= lease.expiresAt
    ensures forall m, k :: 0 <= m < |log| && 0 <= k < |log| ==>
      InForce(log, reentrant, |log|, m) && now <= log[m].at + log[m].ttl ==>
      InForce(log, reentrant, |log|, k) && now <= log[k].at + log[k].ttl ==> m == k
  {
    assert log[..|log|] == log;
    if Live(Cell(log, reentrant), now) == Some(lease) {
      var m := LockWasGranted(log, reentrant, |log|);
    }
    forall m | 0 <= m < |log| && InForce(log, reentrant, |log|, m) && now <= log[m].at + log[m].ttl
      ensures Cell(log, reentrant) == Some(log[m].Lasting())
    {
      GrantIsTheLock(log, reentrant, |log|, m);
    }
  }

  /** The last call by `who` before n that was a grant or a release. */
  function LastTouch(log: seq<Event>, reentrant: bool, who: string, i: nat, n: nat): (k: nat)
    requires i < n <= |log| && log[i].who == who && Granted(log, reentrant, i)
    ensures i <= k < n && log[k].who == who
    ensures Granted(log, reentrant, k) || log[k].kind.Release?
    ensures forall l :: k < l < n && log[l].who == who ==> !Granted(log, reentrant, l) && !log[l].kind.Release?
    decreases n
  {
    if n - 1 == i || (log[n - 1].who == who && (Granted(log, reentrant, n - 1) || log[n - 1].kind.Release?)) then n - 1
    else LastTouch(log, reentrant, who, i, n - 1)
  }

  /**
   Validity intervals of different owners never overlap: between a grant to one instance and a
   later grant to another, the first one released the lock, or its last lease had strictly expired.
   */
  lemma GrantsAreSeparated(log: seq<Event>, reentrant: bool, i: nat, j: nat)
    requires Timed(log) && i < j < |log| && log[i].who != log[j].who
    requires Granted(log, reentrant, i) && Granted(log, reentrant, j)
    ensures exists k ::
      && i <= k < j && log[k].who == log[i].who
      && (log[k].kind.Release? || (Granted(log, reentrant, k) && log[k].at + log[k].ttl < log[j].at))
  {
    var k := LastTouch(log, reentrant, log[i].who, i, j);
    if !log[k].kind.Release? && log[j].at <= log[k].at + log[k].ttl {
      GrantIsTheLock(log, reentrant, j, k);
    }
  }

  /** Another instance's call changes a live lease never; the owner changes only by its own release or after expiry. */
  lemma StaleCallsAreHarmless(log: seq<Event>, reentrant: bool, n: nat)
    requires Timed(log) && n < |log| && Cell(log[..n], reentrant).Some?
    ensures var lease := Cell(log[..n], reentrant).value;
      (log[n].who != lease.owner && log[n].at <= lease.expiresAt ==> Cell(log[..n + 1], reentrant) == Some(lease))
      && (Cell(log[..n + 1], reentrant).None? || Cell(log[..n + 1], reentrant).value.owner != lease.owner ==>
           log[n].at > lease.expiresAt || (log[n].kind.Release? && log[n].who == lease.owner))
  {
    CellOfPrefix(log, reentrant, n);
  }

  /** Attempts to acquire by others than `dead`, in time order, at most `gap` apart, past `deadline`. */
  predicate KeepsTrying(log: seq<Event>, dead: string, tries: seq<nat>, since: Time, gap: Time, deadline: Time) {
    && tries != []
    && (forall k :: 0 <= k < |tries| ==> tries[k] < |log| && log[tries[k]].kind.Acquire? && log[tries[k]].who != dead)
    && log[tries[0]].at <= since + gap
    && (forall k :: 0 < k < |tries| ==> tries[k - 1] < tries[k] && log[tries[k]].at <= log[tries[k - 1]].at + gap)
    && deadline < log[tries[|tries| - 1]].at
  }

  lemma {:induction false} FirstTryAfter(log: seq<Event>, dead: string, tries: seq<nat>, since: Time, gap: Time, deadline: Time)
    returns (k: nat)
    requires KeepsTrying(log, dead, tries, since, gap, deadline) && since <= deadline
    ensures k < |tries| && deadline < log[tries[k]].at <= deadline + gap
    decreases |tries|
  {
    var n := |tries| - 1;
    if n == 0 || log[tries[n - 1]].at <= deadline {
      k := n;
    } else {
      k := FirstTryAfter(log, dead, tries[..n], since, gap, deadline);
    }
  }

  lemma RefusedCallOfAnother(cell: Option<Lease>, e: Event, reentrant: bool, lease: Lease)
    requires cell.None? || cell == Some(lease)
    requires e.who != lease.owner && !Step(cell, e, reentrant).1
    ensures Step(cell, e, reentrant).0.None? || Step(cell, e, reentrant).0 == Some(lease)
  {
  }

  /** Nobody else was granted and the dead holder made no call: the lock is still the dead one's. */
  lemma {:induction false} UntouchedLease(log: seq<Event>, reentrant: bool, dead: string, n: nat, m: nat, lease: Lease)
    requires n <= m <= |log| && Cell(log[..n], reentrant) == Some(lease) && lease.owner == dead
    requires forall k :: n <= k < m ==> log[k].who != dead && !Granted(log, reentrant, k)
    ensures Cell(log[..m], reentrant).None? || Cell(log[..m], reentrant) == Some(lease)
    decreases m
  {
    if n < m {
      UntouchedLease(log, reentrant, dead, n, m - 1, lease);
      CellOfPrefix(log, reentrant, m - 1);
      assert !Granted(log, reentrant, m - 1);
      RefusedCallOfAnother(Cell(log[..m - 1], reentrant), log[m - 1], reentrant, lease);
    }
  }

  /**
   Bounded failover: once the holder, last granted no later than `since`, makes no more calls,
   and standbys keep trying at gaps of at most `gap`, another instance is granted the lock by
   since + ttl + gap.
   */
  lemma BoundedFailover(
    log: seq<Event>, reentrant: bool, n: nat, lease: Lease, since: Time, ttl: Time, gap: Time, tries: seq<nat>)
    requires Timed(log) && n <= |log| && ttl >= 0
    requires Cell(log[..n], reentrant) == Some(lease) && lease.expiresAt <= since + ttl
    requires forall k :: n <= k < |log| ==> log[k].who != lease.owner
    requires KeepsTrying(log, lease.owner, tries, since, gap, since + ttl)
    requires forall k :: 0 <= k < |tries| ==> n <= tries[k]
    ensures exists j ::
      && n <= j < |log| && Granted(log, reentrant, j) && log[j].who != lease.owner
      && log[j].at <= since + ttl + gap
  {
    var k := FirstTryAfter(log, lease.owner, tries, since, gap, since + ttl);
    var t := tries[k];
    if forall j :: n <= j < t ==> !Granted(log, reentrant, j) {
      UntouchedLease(log, reentrant, lease.owner, n, t, lease);
      assert Granted(log, reentrant, t);
    }
  }
}
