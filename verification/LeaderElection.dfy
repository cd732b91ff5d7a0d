/**
 Leader election by any number of pods on one expiring lock, with the lock call and the store
 of its reply as separate steps, calls that may be lost on the way there or back, a clock that
 may advance anywhere, and shutdown running beside it all.
 */
module LeaderElection {
  import opened Domain
  import opened LeaderLock

  /** Where a pod's election goroutine stands inside tryLeaderElection. */
  datatype Phase =
    | Idle
    | Renewing                 // saw isLeader, about to renew
    | Acquiring                // saw !isLeader, about to acquire
    | Replied(granted: bool)   // has a reply, about to store it

  /** How far Stop has come: stopChan open, closed, lock release decided on, finished. */
  datatype Stop = Up | Closed | Releasing | Stopped

  /** `leaseUntil` is when the lease of the pod's last granted call runs out; `begunAt` when its last attempt began. */
  datatype Pod = Pod(isLeader: bool, phase: Phase, stop: Stop, leaseUntil: Time, begunAt: Time)

  datatype Cluster = Cluster(now: Time, lock: Option<Lease>, pods: map<string, Pod>)

  datatype Fate = Delivered | RequestLost | ReplyLost

  datatype Action =
    | Tick(later: Time)
    | Begin(pod: string)                 // isLeader.Load in tryLeaderElection
    | Call(pod: string, fate: Fate)      // the renew or acquire call
    | Store(pod: string)                 // isLeader.Store
    | Close(pod: string)                 // Stop: close(stopChan)
    | Decide(pod: string)                // Stop: isLeader.Load
    | ReleaseLock(pod: string, fate: Fate)  // Stop: the release call
    | StartSync(pod: string)             // runPeriodicSync sees isLeader and starts a cycle

  function Start(ids: set<string>, now: Time): Cluster {
    Cluster(now, None, map id | id in ids :: Pod(false, Idle, Up, now, now))
  }

  predicate Enabled(c: Cluster, a: Action) {
    if a.Tick? then c.now <= a.later
    else
      && a.pod in c.pods
      && var p := c.pods[a.pod];
         match a
         case Begin(_) => p.phase.Idle?
         case Call(_, _) => p.phase.Renewing? || p.phase.Acquiring?
         case Store(_) => p.phase.Replied?
         case Close(_) => p.stop.Up?
         case Decide(_) => p.stop.Closed?
         case ReleaseLock(_, _) => p.stop.Releasing?
         case StartSync(_) => p.isLeader
  }

  /** A lock call that reaches the store takes effect there, whether or not its reply comes back. */
  function AfterCall(c: Cluster, id: string, fate: Fate, ttl: Time, reentrant: bool): Cluster
    requires id in c.pods
  {
    var p := c.pods[id];
    if fate.RequestLost? then c.(pods := c.pods[id := p.(phase := Replied(false))])
    else
      var e := Event(if p.phase.Renewing? then LeaderLock.Renew else LeaderLock.Acquire, id, c.now, ttl);
      var (lock, granted) := LeaderLock.Step(c.lock, e, reentrant);
      var seen := p.(phase := Replied(granted && fate.Delivered?), leaseUntil := if granted then c.now + ttl else p.leaseUntil);
      c.(lock := lock, pods := c.pods[id := seen])
  }

  function Apply(c: Cluster, a: Action, ttl: Time, reentrant: bool): Cluster
    requires Enabled(c, a)
  {
    if a.Tick? then c.(now := a.later)
    else
      var p := c.pods[a.pod];
      match a
      case Begin(id) =>
        c.(pods := c.pods[id := p.(phase := if p.isLeader then Renewing else Acquiring, begunAt := c.now)])
      case Call(id, fate) => AfterCall(c, id, fate, ttl, reentrant)
      case Store(id) => c.(pods := c.pods[id := p.(isLeader := p.phase.granted, phase := Idle)])
      case Close(id) => c.(pods := c.pods[id := p.(stop := Closed)])
      case Decide(id) => c.(pods := c.pods[id := p.(stop := if p.isLeader then Releasing else Stopped)])
      case ReleaseLock(id, fate) =>
        c.(pods := c.pods[id := p.(stop := Stopped)],
           lock := if fate.RequestLost? then c.lock
                   else LeaderLock.Step(c.lock, Event(LeaderLock.Release, id, c.now, 0), reentrant).0)
      case StartSync(_) => c
  }

  /** Every cluster state some interleaving of the pods' steps can produce. */
  ghost predicate Reachable(c: Cluster, ids: set<string>, ttl: Time, reentrant: bool) {
    exists actions: seq<Action>, start: Time :: Runs(Start(ids, start), actions, c, ttl, reentrant)
  }

  predicate Runs(from: Cluster, actions: seq<Action>, to: Cluster, ttl: Time, reentrant: bool)
    decreases |actions|
  {
    if actions == [] then from == to
    else Enabled(from, actions[0]) && Runs(Apply(from, actions[0], ttl, reentrant), actions[1..], to, ttl, reentrant)
  }

  /** The pod believes it leads, or is about to, and has not begun to stop. */
  predicate Claims(p: Pod) {
    p.stop.Up? && (p.isLeader || p.phase == Replied(true))
  }

  predicate Leads(c: Cluster, id: string) {
    id in c.pods && c.pods[id].isLeader && c.pods[id].stop.Up?
  }

  predicate OwnsLock(c: Cluster, id: string) {
    c.lock.Some? && c.lock.value.owner == id && c.now <= c.lock.value.expiresAt
  }

  /** The timing hypothesis, at one moment: no claimed lease has run out. */
  predicate Timely(c: Cluster) {
    forall id :: id in c.pods && Claims(c.pods[id]) ==> c.now <= c.pods[id].leaseUntil
  }

  /** What every step keeps, with no timing hypothesis at all. */
  ghost predicate Inv(c: Cluster) {
    && (forall id :: id in c.pods && Claims(c.pods[id]) && c.now <= c.pods[id].leaseUntil ==>
          c.lock == Some(Lease(id, c.pods[id].leaseUntil)))
    && (c.lock.Some? ==> c.lock.value.owner in c.pods && c.pods[c.lock.value.owner].leaseUntil == c.lock.value.expiresAt)
    && (forall id :: id in c.pods && c.pods[id].phase.Acquiring? ==> !c.pods[id].isLeader)
    && (forall id :: id in c.pods && c.pods[id].phase.Renewing? ==> c.pods[id].isLeader)
  }

  lemma CallKeepsInv(c: Cluster, id: string, fate: Fate, ttl: Time, reentrant: bool)
    requires Inv(c) && Enabled(c, Call(id, fate))
    ensures Inv(AfterCall(c, id, fate, ttl, reentrant))
  {
  }

  lemma ReleaseKeepsInv(c: Cluster, id: string, fate: Fate, ttl: Time, reentrant: bool)
    requires Inv(c) && Enabled(c, ReleaseLock(id, fate))
    ensures Inv(Apply(c, ReleaseLock(id, fate), ttl, reentrant))
  {
  }

  lemma StepKeepsInv(c: Cluster, a: Action, ttl: Time, reentrant: bool)
    requires Inv(c) && Enabled(c, a)
    ensures Inv(Apply(c, a, ttl, reentrant))
  {
    match a
    case Call(id, fate) => CallKeepsInv(c, id, fate, ttl, reentrant);
    case ReleaseLock(id, fate) => ReleaseKeepsInv(c, id, fate, ttl, reentrant);
    case _ =>
  }

  lemma {:induction false} RunKeepsInv(from: Cluster, actions: seq<Action>, to: Cluster, ttl: Time, reentrant: bool)
    requires Inv(from) && Runs(from, actions, to, ttl, reentrant)
    ensures Inv(to)
    decreases |actions|
  {
    if actions != [] {
      StepKeepsInv(from, actions[0], ttl, reentrant);
      RunKeepsInv(Apply(from, actions[0], ttl, reentrant), actions[1..], to, ttl, reentrant);
    }
  }

  lemma ReachableInv(c: Cluster, ids: set<string>, ttl: Time, reentrant: bool)
    requires Reachable(c, ids, ttl, reentrant)
    ensures Inv(c)
  {
    var actions, start :| Runs(Start(ids, start), actions, c, ttl, reentrant);
    RunKeepsInv(Start(ids, start), actions, c, ttl, reentrant);
  }

  /**
   In every reachable state a pod that leads owns the unexpired lock if and only if its own
   last lease has not run out.
   */
  lemma LeaderOwnsLockIff(c: Cluster, ids: set<string>, ttl: Time, reentrant: bool, id: string)
    requires Reachable(c, ids, ttl, reentrant) && Leads(c, id)
    ensures OwnsLock(c, id) <==> c.now <= c.pods[id].leaseUntil
  {
    ReachableInv(c, ids, ttl, reentrant);
  }

  /** Exclusion: while claimed leases have not run out, at most one pod leads, and it owns the unexpired lock. */
  lemma LeaderExclusion(c: Cluster, ids: set<string>, ttl: Time, reentrant: bool)
    requires Reachable(c, ids, ttl, reentrant) && Timely(c)
    ensures forall a, b :: Leads(c, a) && Leads(c, b) ==> a == b
    ensures forall a :: Leads(c, a) ==> OwnsLock(c, a)
  {
    ReachableInv(c, ids, ttl, reentrant);
  }

  // ---------- What each step of a pod achieves ----------

  predicate LockFree(c: Cluster) {
    Live(c.lock, c.now) == None
  }

  /** The pod's last lease still runs. */
  predicate LeaseRuns(c: Cluster, id: string)
    requires id in c.pods
  {
    c.now <= c.pods[id].leaseUntil
  }

  /**
   A renewal that gets through is granted if and only if the pod still owns the unexpired lock,
   and then gives it a whole TTL from now; an acquisition if and only if the lock is free, or
   already the pod's own in the cache that allows that. Refused calls leave the lock alone.
   */
  lemma CallGrantedIff(c: Cluster, id: string, ttl: Time, reentrant: bool)
    requires Enabled(c, Call(id, Delivered))
    ensures var c' := Apply(c, Call(id, Delivered), ttl, reentrant);
      var granted := if c.pods[id].phase.Renewing? then OwnsLock(c, id) else LockFree(c) || (reentrant && OwnsLock(c, id));
      && c'.pods[id].phase == Replied(granted)
      && (granted ==> c'.lock == Some(Lease(id, c.now + ttl)) && c'.pods[id].leaseUntil == c.now + ttl)
      && (!granted ==> Live(c'.lock, c.now) == Live(c.lock, c.now) && c'.pods[id].leaseUntil == c.pods[id].leaseUntil)
      && c'.pods[id].isLeader == c.pods[id].isLeader
  {
  }

  /** A call whose request or reply is lost looks refused to the pod; a lost request leaves the lock alone, a lost reply does not. */
  lemma LostCallLooksRefused(c: Cluster, id: string, fate: Fate, ttl: Time, reentrant: bool)
    requires Enabled(c, Call(id, fate)) && !fate.Delivered?
    ensures var c', delivered := Apply(c, Call(id, fate), ttl, reentrant), Apply(c, Call(id, Delivered), ttl, reentrant);
      && c'.pods[id].phase == Replied(false)
      && c'.lock == if fate.RequestLost? then c.lock else delivered.lock
  {
  }

  /** One whole attempt, from looking at the flag to storing the reply, with time passing before the call and before the store. */
  function Attempt(c: Cluster, id: string, called: Time, stored: Time, fate: Fate, ttl: Time, reentrant: bool): Cluster
    requires id in c.pods && c.pods[id].phase.Idle? && c.now <= called <= stored
  {
    var begun := Apply(c, Begin(id), ttl, reentrant);
    var replied := Apply(Apply(begun, Tick(called), ttl, reentrant), Call(id, fate), ttl, reentrant);
    Apply(Apply(replied, Tick(stored), ttl, reentrant), Store(id), ttl, reentrant)
  }

  /**
   What a leader gets from renewing: if its lease still runs when the renewal is delivered, it goes
   on leading with a lease of a whole TTL from the call, and owns the lock while that runs; if the
   lease has run out, or the call is lost on the way, it steps down. On either cache.
   */
  lemma RenewalKeepsLeading(
    c: Cluster, ids: set<string>, ttl: Time, reentrant: bool, id: string, called: Time, stored: Time, fate: Fate)
    requires Reachable(c, ids, ttl, reentrant) && Leads(c, id) && c.pods[id].phase.Idle? && c.now <= called <= stored
    ensures var c' := Attempt(c, id, called, stored, fate, ttl, reentrant);
      && (Leads(c', id) <==> fate.Delivered? && called <= c.pods[id].leaseUntil)
      && (Leads(c', id) ==> c'.pods[id].leaseUntil == called + ttl && c'.lock == Some(Lease(id, called + ttl)))
      && (Leads(c', id) && stored <= called + ttl ==> OwnsLock(c', id))
  {
    ReachableInv(c, ids, ttl, reentrant);
  }

  /** And a standby: it comes to lead if and only if its acquisition is delivered while the lock is free, or its own where that is allowed. */
  lemma StandbyLeadsIff(
    c: Cluster, ids: set<string>, ttl: Time, reentrant: bool, id: string, called: Time, stored: Time, fate: Fate)
    requires Reachable(c, ids, ttl, reentrant) && id in c.pods && !c.pods[id].isLeader && c.pods[id].stop.Up?
    requires c.pods[id].phase.Idle? && c.now <= called <= stored
    ensures var c', at := Attempt(c, id, called, stored, fate, ttl, reentrant), c.(now := called);
      && (Leads(c', id) <==> fate.Delivered? && (LockFree(at) || (reentrant && OwnsLock(at, id))))
      && (Leads(c', id) ==> c'.pods[id].leaseUntil == called + ttl && c'.lock == Some(Lease(id, called + ttl)))
  {
  }

  /** The steps of Stop, with a release that meets this fate. */
  function StopSteps(c: Cluster, id: string, fate: Fate, ttl: Time, reentrant: bool): Cluster
    requires id in c.pods && c.pods[id].stop.Up?
  {
    var decided := Apply(Apply(c, Close(id), ttl, reentrant), Decide(id), ttl, reentrant);
    if decided.pods[id].stop.Releasing? then Apply(decided, ReleaseLock(id, fate), ttl, reentrant) else decided
  }

  /**
   What Stop does to the lock: a leader whose release reaches the cache gives up its own lock, so
   a standby that leads no one finds it free at once; a lock of another pod is left alone; and a
   pod that does not lead makes no call. The flag of the stopped pod stays set.
   */
  lemma StopHandsOver(c: Cluster, ids: set<string>, ttl: Time, reentrant: bool, id: string, fate: Fate)
    requires Reachable(c, ids, ttl, reentrant) && id in c.pods && c.pods[id].stop.Up?
    ensures var c' := StopSteps(c, id, fate, ttl, reentrant);
      && c'.pods[id].stop == Stopped && c'.pods[id].isLeader == c.pods[id].isLeader
      && Live(c'.lock, c.now) ==
           if c.pods[id].isLeader && !fate.RequestLost? && OwnsLock(c, id) then None else Live(c.lock, c.now)
  {
  }

  lemma {:induction false} RunSplit(
    from: Cluster, actions: seq<Action>, to: Cluster, ttl: Time, reentrant: bool, n: nat) returns (mid: Cluster)
    requires Runs(from, actions, to, ttl, reentrant) && n <= |actions|
    ensures Runs(from, actions[..n], mid, ttl, reentrant) && Runs(mid, actions[n..], to, ttl, reentrant)
    decreases n
  {
    if n == 0 {
      mid := from;
      assert actions[0..] == actions;
    } else {
      mid := RunSplit(Apply(from, actions[0], ttl, reentrant), actions[1..], to, ttl, reentrant, n - 1);
      assert actions[..n][1..] == actions[1..][..n - 1];
      assert actions[n..] == actions[1..][n - 1..];
    }
  }

  /**
   Every periodic cycle that a pod starts before it begins to stop, at a moment when claimed
   leases hold, is started by the only leader, which then owns the unexpired lock.
   */
  lemma SyncStartsExclusively(
    ids: set<string>, start: Time, actions: seq<Action>, to: Cluster, ttl: Time, reentrant: bool, n: nat)
    returns (at: Cluster)
    requires Runs(Start(ids, start), actions, to, ttl, reentrant)
    requires n < |actions| && actions[n].StartSync?
    ensures Runs(Start(ids, start), actions[..n], at, ttl, reentrant) && Enabled(at, actions[n])
    ensures at.pods[actions[n].pod].stop.Up? && Timely(at) ==>
      OwnsLock(at, actions[n].pod) && forall other :: Leads(at, other) <==> other == actions[n].pod
  {
    at := RunSplit(Start(ids, start), actions, to, ttl, reentrant, n);
    assert Reachable(at, ids, ttl, reentrant);
    assert actions[n..][0] == actions[n];
    if Timely(at) {
      LeaderExclusion(at, ids, ttl, reentrant);
    }
  }

  // ---------- When the timing hypothesis holds ----------

  /** How long may pass between two attempts, and how long one may take, from its begin to the store. */
  datatype Pace = Pace(interval: nat, attempt: nat)

  /** No claiming pod is late: its next attempt begins within the interval, and a begun one ends in time. */
  predicate Punctual(c: Cluster, pace: Pace) {
    forall id :: id in c.pods && Claims(c.pods[id]) ==>
      c.now <= c.pods[id].begunAt + (if c.pods[id].phase.Idle? then pace.interval else pace.attempt)
  }

  /** The run is possible, and nobody is late in any of its states. */
  predicate PunctualRun(from: Cluster, actions: seq<Action>, to: Cluster, ttl: Time, reentrant: bool, pace: Pace)
    decreases |actions|
  {
    && Punctual(from, pace)
    && if actions == [] then from == to
       else
         && Enabled(from, actions[0])
         && PunctualRun(Apply(from, actions[0], ttl, reentrant), actions[1..], to, ttl, reentrant, pace)
  }

  /** A claimed lease outlasts what may still pass until it is renewed or given up. */
  predicate LeaseLasts(c: Cluster, ttl: Time, pace: Pace) {
    forall id :: id in c.pods && Claims(c.pods[id]) ==>
      c.pods[id].leaseUntil >= c.pods[id].begunAt + ttl - (if c.pods[id].phase in {Idle, Replied(true)} then 0 else pace.interval)
  }

  ghost predicate PaceInv(c: Cluster, ttl: Time, pace: Pace) {
    && Inv(c) && LeaseLasts(c, ttl, pace)
    && forall id :: id in c.pods ==> c.pods[id].begunAt <= c.now
  }

  lemma CallKeepsPace(c: Cluster, id: string, fate: Fate, ttl: Time, reentrant: bool, pace: Pace)
    requires PaceInv(c, ttl, pace) && Punctual(c, pace) && Enabled(c, Call(id, fate))
    ensures LeaseLasts(AfterCall(c, id, fate, ttl, reentrant), ttl, pace)
  {
  }

  lemma StepKeepsPace(c: Cluster, a: Action, ttl: Time, reentrant: bool, pace: Pace)
    requires PaceInv(c, ttl, pace) && Punctual(c, pace) && Enabled(c, a)
    ensures PaceInv(Apply(c, a, ttl, reentrant), ttl, pace)
  {
    StepKeepsInv(c, a, ttl, reentrant);
    if a.Call? {
      CallKeepsPace(c, a.pod, a.fate, ttl, reentrant, pace);
    }
  }

  lemma {:induction false} PunctualRunKeepsPace(
    from: Cluster, actions: seq<Action>, to: Cluster, ttl: Time, reentrant: bool, pace: Pace)
    requires PaceInv(from, ttl, pace) && PunctualRun(from, actions, to, ttl, reentrant, pace)
    ensures PaceInv(to, ttl, pace) && Punctual(to, pace)
    decreases |actions|
  {
    if actions != [] {
      StepKeepsPace(from, actions[0], ttl, reentrant, pace);
      PunctualRunKeepsPace(Apply(from, actions[0], ttl, reentrant), actions[1..], to, ttl, reentrant, pace);
    }
  }

  /**
   The timing hypothesis derived: when attempts begin at most `interval` apart, take at most
   `attempt`, and the lock TTL covers both, no claimed lease ever runs out, so at most one pod
   leads and it owns the unexpired lock.
   */
  lemma PunctualExclusion(
    ids: set<string>, start: Time, actions: seq<Action>, c: Cluster, ttl: Time, reentrant: bool, pace: Pace)
    requires PunctualRun(Start(ids, start), actions, c, ttl, reentrant, pace) && pace.interval + pace.attempt <= ttl
    ensures Timely(c)
    ensures forall a, b :: Leads(c, a) && Leads(c, b) ==> a == b
    ensures forall a :: Leads(c, a) ==> OwnsLock(c, a)
  {
    PunctualRunKeepsPace(Start(ids, start), actions, c, ttl, reentrant, pace);
  }

  ghost predicate PunctuallyReachable(c: Cluster, ids: set<string>, ttl: Time, reentrant: bool, pace: Pace) {
    exists actions: seq<Action>, start: Time :: PunctualRun(Start(ids, start), actions, c, ttl, reentrant, pace)
  }

  lemma {:induction false} PunctualOneMore(
    from: Cluster, actions: seq<Action>, to: Cluster, a: Action, ttl: Time, reentrant: bool, pace: Pace)
    requires PunctualRun(from, actions, to, ttl, reentrant, pace) && Enabled(to, a)
    requires Punctual(Apply(to, a, ttl, reentrant), pace)
    ensures PunctualRun(from, actions + [a], Apply(to, a, ttl, reentrant), ttl, reentrant, pace)
    decreases |actions|
  {
    if actions == [] {
      assert ([a])[1..] == [];
      assert actions + [a] == [a];
    } else {
      PunctualOneMore(Apply(from, actions[0], ttl, reentrant), actions[1..], to, a, ttl, reentrant, pace);
      assert (actions + [a])[1..] == actions[1..] + [a];
    }
  }

  lemma PunctualNext(c: Cluster, a: Action, ids: set<string>, ttl: Time, reentrant: bool, pace: Pace) returns (c': Cluster)
    requires PunctuallyReachable(c, ids, ttl, reentrant, pace) && Enabled(c, a)
    requires Punctual(Apply(c, a, ttl, reentrant), pace)
    ensures c' == Apply(c, a, ttl, reentrant) && PunctuallyReachable(c', ids, ttl, reentrant, pace)
  {
    c' := Apply(c, a, ttl, reentrant);
    var actions, start :| PunctualRun(Start(ids, start), actions, c, ttl, reentrant, pace);
    PunctualOneMore(Start(ids, start), actions, c, a, ttl, reentrant, pace);
  }

  /** An idle pod that finds the lock free becomes the leader. */
  lemma BecomesLeader(c: Cluster, id: string, ids: set<string>, ttl: Time, reentrant: bool, pace: Pace) returns (c': Cluster)
    requires PunctuallyReachable(c, ids, ttl, reentrant, pace) && Punctual(c, pace) && id in c.pods
    requires c.pods[id] == Pod(false, Idle, Up, c.pods[id].leaseUntil, c.pods[id].begunAt) && Live(c.lock, c.now) == None
    ensures PunctuallyReachable(c', ids, ttl, reentrant, pace)
    ensures c' == c.(lock := Some(Lease(id, c.now + ttl)), pods := c.pods[id := Pod(true, Idle, Up, c.now + ttl, c.now)])
  {
    var p := c.pods[id];
    var c1 := c.(pods := c.pods[id := p.(phase := Acquiring, begunAt := c.now)]);
    var c2 := c.(lock := Some(Lease(id, c.now + ttl)), pods := c.pods[id := Pod(false, Replied(true), Up, c.now + ttl, c.now)]);
    c' := PunctualNext(c, Begin(id), ids, ttl, reentrant, pace);
    assert c' == c1;
    assert Apply(c1, Call(id, Delivered), ttl, reentrant) == c2;
    c' := PunctualNext(c', Call(id, Delivered), ids, ttl, reentrant, pace);
    c' := PunctualNext(c', Store(id), ids, ttl, reentrant, pace);
  }

  /** Pod a leads on a lease granted at time 0, and pod b has done nothing yet. */
  function LedByA(now: Time, phase: Phase, begunAt: Time, ttl: Time): Cluster {
    Cluster(now, Some(Lease("a", ttl)),
            map["a" := Pod(true, phase, Up, ttl, begunAt), "b" := Pod(false, Idle, Up, 0, 0)])
  }

  ghost predicate ReachesLedByA(now: Time, phase: Phase, begunAt: Time, ttl: Time, reentrant: bool, pace: Pace) {
    PunctuallyReachable(LedByA(now, phase, begunAt, ttl), {"a", "b"}, ttl, reentrant, pace)
  }

  lemma AElected(ttl: Time, reentrant: bool, pace: Pace)
    ensures ReachesLedByA(0, Idle, 0, ttl, reentrant, pace)
  {
    var c := Start({"a", "b"}, 0);
    assert PunctualRun(c, [], c, ttl, reentrant, pace);
    c := BecomesLeader(c, "a", {"a", "b"}, ttl, reentrant, pace);
    assert c == LedByA(0, Idle, 0, ttl);
  }

  lemma AWaits(now: Time, later: Time, phase: Phase, begunAt: Time, ttl: Time, reentrant: bool, pace: Pace)
    requires ReachesLedByA(now, phase, begunAt, ttl, reentrant, pace)
    requires now <= later <= begunAt + (if phase.Idle? then pace.interval else pace.attempt)
    ensures ReachesLedByA(later, phase, begunAt, ttl, reentrant, pace)
  {
    var c := PunctualNext(LedByA(now, phase, begunAt, ttl), Tick(later), {"a", "b"}, ttl, reentrant, pace);
    assert c == LedByA(later, phase, begunAt, ttl);
  }

  lemma ARenews(now: Time, ttl: Time, reentrant: bool, pace: Pace)
    requires ReachesLedByA(now, Idle, 0, ttl, reentrant, pace)
    ensures ReachesLedByA(now, Renewing, now, ttl, reentrant, pace)
  {
    var before, after := LedByA(now, Idle, 0, ttl), LedByA(now, Renewing, now, ttl);
    assert Apply(before, Begin("a"), ttl, reentrant) == after;
    var c := PunctualNext(before, Begin("a"), {"a", "b"}, ttl, reentrant, pace);
  }

  /**
   When the TTL does not cover interval and attempt, two pods can lead though nobody is late: the
   first is still renewing when the second finds the lock expired.
   */
  lemma TwoPunctualLeaders(ttl: Time, reentrant: bool, pace: Pace) returns (c: Cluster)
    requires pace.interval + pace.attempt > ttl
    ensures PunctuallyReachable(c, {"a", "b"}, ttl, reentrant, pace)
    ensures Leads(c, "a") && Leads(c, "b") && c.now > c.pods["a"].leaseUntil
  {
    var end := pace.interval + pace.attempt;
    AElected(ttl, reentrant, pace);
    AWaits(0, pace.interval, Idle, 0, ttl, reentrant, pace);
    ARenews(pace.interval, ttl, reentrant, pace);
    AWaits(pace.interval, end, Renewing, pace.interval, ttl, reentrant, pace);
    c := BecomesLeader(LedByA(end, Renewing, pace.interval, ttl), "b", {"a", "b"}, ttl, reentrant, pace);
  }

  lemma {:induction false} PunctualRunsAreRuns(
    from: Cluster, actions: seq<Action>, to: Cluster, ttl: Time, reentrant: bool, pace: Pace)
    requires PunctualRun(from, actions, to, ttl, reentrant, pace)
    ensures Runs(from, actions, to, ttl, reentrant)
    decreases |actions|
  {
    if actions != [] {
      PunctualRunsAreRuns(Apply(from, actions[0], ttl, reentrant), actions[1..], to, ttl, reentrant, pace);
    }
  }

  /** Without any timing hypothesis two pods can lead: a lease of 10 expires while its owner is not looking. */
  lemma TwoLeadersWithoutTiming(reentrant: bool) returns (c: Cluster)
    ensures Reachable(c, {"a", "b"}, 10, reentrant)
    ensures Leads(c, "a") && Leads(c, "b")
    ensures c.now > c.pods["a"].leaseUntil
  {
    c := TwoPunctualLeaders(10, reentrant, Pace(11, 0));
    var actions, start :| PunctualRun(Start({"a", "b"}, start), actions, c, 10, reentrant, Pace(11, 0));
    PunctualRunsAreRuns(Start({"a", "b"}, start), actions, c, 10, reentrant, Pace(11, 0));
  }

  /** At most one pod leads in every state of every run in which nobody is late. */
  ghost predicate Exclusive(ttl: Time, reentrant: bool, pace: Pace) {
    forall c: Cluster, ids: set<string> :: PunctuallyReachable(c, ids, ttl, reentrant, pace) ==>
      forall a, b :: Leads(c, a) && Leads(c, b) ==> a == b
  }

  /** Exactly how long the lock TTL has to be: long enough for one interval and one attempt. */
  lemma ExclusiveIffTtlCovers(ttl: Time, reentrant: bool, pace: Pace)
    ensures Exclusive(ttl, reentrant, pace) <==> pace.interval + pace.attempt <= ttl
  {
    if pace.interval + pace.attempt <= ttl {
      forall c: Cluster, ids: set<string> | PunctuallyReachable(c, ids, ttl, reentrant, pace)
        ensures forall a, b :: Leads(c, a) && Leads(c, b) ==> a == b
      {
        var actions, start :| PunctualRun(Start(ids, start), actions, c, ttl, reentrant, pace);
        PunctualExclusion(ids, start, actions, c, ttl, reentrant, pace);
      }
    } else {
      var c := TwoPunctualLeaders(ttl, reentrant, pace);
    }
  }
}
