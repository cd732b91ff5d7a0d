/**
 The bounded pool behind both fetches: one dispatcher, one goroutine per id, a semaphore
 channel, a wait group and a shared result map, in every interleaving and with cancellation
 at any moment.
 */
module WorkerPool {
  import opened Domain
  import PollerService

  /** The life of one id, from waiting in the input to the end of its goroutine. */
  datatype Phase<+V> =
    | Queued
    | Spawned
    | Calling
    | Replied(reply: Option<V>)
    | Recorded(reply: Option<V>)   // stored in the results if it was a success
    | Released(reply: Option<V>)   // slot given back
    | Done(reply: Option<V>)       // wg.Done

  datatype Dispatcher = Selecting | Holding | Waiting | Returned

  /** `slots` is the content of the semaphore channel, each token labelled with the index it was taken for. */
  datatype Pool<V> = Pool(
    next: nat,
    dispatcher: Dispatcher,
    phases: seq<Phase<V>>,
    slots: set<int>,
    cancelled: bool,
    calls: seq<Id>,
    results: map<Id, V>
  )

  datatype Action<+V> =
    | Take | Spawn | Break | Exhaust | Return
    | StartCall(i: nat) | Reply(i: nat, reply: Option<V>) | Record(i: nat) | Release(i: nat) | Finish(i: nat)
    | Cancel

  function Start<V>(ids: seq<Id>): Pool<V> {
    Pool(0, Selecting, seq(|ids|, _ => Queued), {}, false, [], map[])
  }

  predicate Enabled<V>(p: Pool<V>, ids: seq<Id>, limit: nat, a: Action<V>) {
    match a
    case Take => p.dispatcher.Selecting? && p.next < |ids| && |p.slots| < limit
    case Spawn => p.dispatcher.Holding?
    case Break => p.dispatcher.Selecting? && p.next < |ids| && p.cancelled
    case Exhaust => p.dispatcher.Selecting? && p.next >= |ids|
    case Return => p.dispatcher.Waiting? && forall i :: 0 <= i < |p.phases| ==> p.phases[i].Queued? || p.phases[i].Done?
    case StartCall(i) => i < |p.phases| && p.phases[i].Spawned?
    case Reply(i, _) => i < |p.phases| && p.phases[i].Calling?
    case Record(i) => i < |p.phases| && p.phases[i].Replied?
    case Release(i) => i < |p.phases| && p.phases[i].Recorded?
    case Finish(i) => i < |p.phases| && p.phases[i].Released?
    case Cancel => !p.cancelled
  }

  function Apply<V>(p: Pool<V>, ids: seq<Id>, limit: nat, a: Action<V>): Pool<V>
    requires |p.phases| == |ids| && p.next <= |ids| && (p.dispatcher.Holding? ==> p.next < |ids|)
    requires Enabled(p, ids, limit, a)
  {
    match a
    case Take => p.(dispatcher := Holding, slots := p.slots + {p.next})
    case Spawn => p.(dispatcher := Selecting, phases := p.phases[p.next := Spawned], next := p.next + 1)
    case Break => p.(dispatcher := Waiting)
    case Exhaust => p.(dispatcher := Waiting)
    case Return => p.(dispatcher := Returned)
    case StartCall(i) => p.(phases := p.phases[i := Calling], calls := p.calls + [ids[i]])
    case Reply(i, reply) => p.(phases := p.phases[i := Replied(reply)])
    case Record(i) =>
      var reply := p.phases[i].reply;
      p.(phases := p.phases[i := Recorded(reply)],
         results := if reply.Some? then p.results[ids[i] := reply.value] else p.results)
    case Release(i) => p.(phases := p.phases[i := Released(p.phases[i].reply)], slots := p.slots - {i})
    case Finish(i) => p.(phases := p.phases[i := Done(p.phases[i].reply)])
    case Cancel => p.(cancelled := true)
  }

  predicate HoldsSlot<V>(f: Phase<V>) {
    f.Spawned? || f.Calling? || f.Replied? || f.Recorded?
  }

  predicate Called<V>(f: Phase<V>) {
    !f.Queued? && !f.Spawned?
  }

  predicate Stored<V>(f: Phase<V>) {
    (f.Recorded? || f.Released? || f.Done?) && f.reply.Some?
  }

  ghost predicate ShapeInv<V>(p: Pool<V>, ids: seq<Id>) {
    && |p.phases| == |ids| && p.next <= |ids|
    && (p.dispatcher.Holding? ==> p.next < |ids|)
    && (forall i :: 0 <= i < |ids| ==> (p.phases[i].Queued? <==> p.next <= i))
    && (p.dispatcher.Waiting? || p.dispatcher.Returned? ==> p.next == |ids| || p.cancelled)
    && (p.dispatcher.Returned? ==> forall i :: 0 <= i < p.next ==> p.phases[i].Done?)
  }

  ghost predicate SlotInv<V>(p: Pool<V>, limit: nat) {
    && (forall i: int :: i in p.slots <==>
          (0 <= i < |p.phases| && HoldsSlot(p.phases[i])) || (p.dispatcher.Holding? && i == p.next))
    && |p.slots| <= limit
  }

  ghost predicate CallInv<V>(p: Pool<V>, ids: seq<Id>)
    requires |p.phases| == |ids|
  {
    && (forall i :: 0 <= i < |ids| ==> (ids[i] in p.calls <==> Called(p.phases[i])))
    && (forall id :: id in p.calls ==> id in ids)
    && PollerService.NoDuplicates(p.calls)
  }

  ghost predicate ResultInv<V>(p: Pool<V>, ids: seq<Id>)
    requires |p.phases| == |ids|
  {
    && (forall i :: 0 <= i < |ids| ==> (ids[i] in p.results <==> Stored(p.phases[i])))
    && (forall i :: 0 <= i < |ids| && Stored(p.phases[i]) ==> p.results[ids[i]] == p.phases[i].reply.value)
    && (forall id :: id in p.results ==> id in ids)
  }

  ghost predicate Inv<V>(p: Pool<V>, ids: seq<Id>, limit: nat) {
    ShapeInv(p, ids) && SlotInv(p, limit) && CallInv(p, ids) && ResultInv(p, ids)
  }

  predicate Runs<V(==)>(from: Pool<V>, ids: seq<Id>, limit: nat, schedule: seq<Action<V>>, to: Pool<V>)
    requires |from.phases| == |ids| && from.next <= |ids| && (from.dispatcher.Holding? ==> from.next < |ids|)
    decreases |schedule|
  {
    if schedule == [] then from == to
    else
      && Enabled(from, ids, limit, schedule[0])
      && var mid := Apply(from, ids, limit, schedule[0]);
         Runs(mid, ids, limit, schedule[1..], to)
  }

  lemma SlotsKept<V>(p: Pool<V>, ids: seq<Id>, limit: nat, a: Action<V>)
    requires ShapeInv(p, ids) && SlotInv(p, limit) && Enabled(p, ids, limit, a)
    ensures SlotInv(Apply(p, ids, limit, a), limit)
  {
  }

  lemma CallsKept<V>(p: Pool<V>, ids: seq<Id>, limit: nat, a: Action<V>)
    requires ShapeInv(p, ids) && CallInv(p, ids) && PollerService.NoDuplicates(ids) && Enabled(p, ids, limit, a)
    ensures CallInv(Apply(p, ids, limit, a), ids)
  {
  }

  lemma ResultsKeptByRecord<V>(p: Pool<V>, ids: seq<Id>, limit: nat, k: nat)
    requires ShapeInv(p, ids) && ResultInv(p, ids) && PollerService.NoDuplicates(ids) && Enabled(p, ids, limit, Record(k))
    ensures ResultInv(Apply(p, ids, limit, Record(k)), ids)
  {
    assert !Stored(p.phases[k]);
    assert forall i :: 0 <= i < |ids| && i != k ==> ids[i] != ids[k];
  }

  lemma ResultsKept<V>(p: Pool<V>, ids: seq<Id>, limit: nat, a: Action<V>)
    requires ShapeInv(p, ids) && ResultInv(p, ids) && PollerService.NoDuplicates(ids) && Enabled(p, ids, limit, a)
    ensures ResultInv(Apply(p, ids, limit, a), ids)
  {
    if a.Record? {
      ResultsKeptByRecord(p, ids, limit, a.i);
    } else {
      var p' := Apply(p, ids, limit, a);
      forall i | 0 <= i < |ids|
        ensures Stored(p'.phases[i]) <==> Stored(p.phases[i])
        ensures Stored(p.phases[i]) ==> p'.phases[i].reply == p.phases[i].reply
      {
      }
      assert p'.results == p.results;
    }
  }

  lemma {:induction false} StepKeepsInv<V>(p: Pool<V>, ids: seq<Id>, limit: nat, a: Action<V>)
    requires Inv(p, ids, limit) && PollerService.NoDuplicates(ids) && Enabled(p, ids, limit, a)
    ensures Inv(Apply(p, ids, limit, a), ids, limit)
  {
    SlotsKept(p, ids, limit, a);
    CallsKept(p, ids, limit, a);
    ResultsKept(p, ids, limit, a);
  }

  lemma {:induction false} RunKeepsInv<V>(from: Pool<V>, ids: seq<Id>, limit: nat, schedule: seq<Action<V>>, to: Pool<V>)
    requires Inv(from, ids, limit) && PollerService.NoDuplicates(ids)
    requires Runs(from, ids, limit, schedule, to)
    ensures Inv(to, ids, limit)
    decreases |schedule|
  {
    if schedule != [] {
      StepKeepsInv(from, ids, limit, schedule[0]);
      RunKeepsInv(Apply(from, ids, limit, schedule[0]), ids, limit, schedule[1..], to);
    }
  }

  lemma ReachedInv<V>(ids: seq<Id>, limit: nat, schedule: seq<Action<V>>, p: Pool<V>)
    requires PollerService.NoDuplicates(ids) && Runs(Start(ids), ids, limit, schedule, p)
    ensures Inv(p, ids, limit)
  {
    RunKeepsInv(Start(ids), ids, limit, schedule, p);
  }

  function InFlight<V>(p: Pool<V>): set<int> {
    set i | 0 <= i < |p.phases| && p.phases[i].Calling?
  }

  /** At every moment of every schedule: bounded calls, none of an id twice, only of a dispatched prefix. */
  lemma CallsBounded<V>(ids: seq<Id>, limit: nat, schedule: seq<Action<V>>, p: Pool<V>)
    requires PollerService.NoDuplicates(ids) && Runs(Start(ids), ids, limit, schedule, p)
    ensures |InFlight(p)| <= limit
    ensures PollerService.NoDuplicates(p.calls) && p.next <= |ids|
    ensures forall id :: id in p.calls ==> id in ids[..p.next]
  {
    ReachedInv(ids, limit, schedule, p);
    SubsetSize(InFlight(p), p.slots);
    forall id | id in p.calls
      ensures id in ids[..p.next]
    {
      var i :| 0 <= i < |ids| && ids[i] == id;
      assert i < p.next && ids[..p.next][i] == id;
    }
  }

  /** The successful replies of a finished pool, by id. */
  ghost predicate ExactlyTheSuccesses<V>(p: Pool<V>, ids: seq<Id>)
    requires |p.phases| == |ids|
  {
    && (forall id :: id in p.results ==> id in ids)
    && forall i :: 0 <= i < |ids| ==>
         (ids[i] in p.results <==> p.phases[i].Done? && p.phases[i].reply.Some?)
         && (ids[i] in p.results ==> p.phases[i].reply == Some(p.results[ids[i]]))
  }

  /**
   On return: no call is pending and no goroutine lives; the ids called are a prefix of the
   input, all of it unless cancelled; the result is exactly the successful replies.
   */
  lemma OnReturn<V>(ids: seq<Id>, limit: nat, schedule: seq<Action<V>>, p: Pool<V>)
    requires PollerService.NoDuplicates(ids) && Runs(Start(ids), ids, limit, schedule, p)
    requires p.dispatcher.Returned?
    ensures |p.phases| == |ids| && p.next <= |ids| && (!p.cancelled ==> p.next == |ids|)
    ensures forall i :: 0 <= i < |ids| ==> if i < p.next then p.phases[i].Done? else p.phases[i].Queued?
    ensures p.slots == {}
    ensures forall id :: id in p.calls <==> id in ids[..p.next]
    ensures ExactlyTheSuccesses(p, ids)
  {
    ReachedInv(ids, limit, schedule, p);
    CallsBounded(ids, limit, schedule, p);
    forall id | id in ids[..p.next]
      ensures id in p.calls
    {
      var i :| 0 <= i < p.next && ids[..p.next][i] == id;
      assert Called(p.phases[i]);
    }
  }

  /** Against a service that is a fixed partial function, every uncancelled schedule computes its restriction to the ids. */
  lemma PoolComputesRestriction<V>(ids: seq<Id>, limit: nat, schedule: seq<Action<V>>, p: Pool<V>, service: map<Id, V>)
    requires PollerService.NoDuplicates(ids) && Runs(Start(ids), ids, limit, schedule, p)
    requires p.dispatcher.Returned? && !p.cancelled
    requires forall i :: 0 <= i < |p.phases| && i < |ids| && p.phases[i].Done? ==>
      p.phases[i].reply == if ids[i] in service then Some(service[ids[i]]) else None
    ensures p.results == PollerService.Restrict(service, ids)
  {
    OnReturn(ids, limit, schedule, p);
    assert forall id :: id in p.results ==> exists i :: 0 <= i < |ids| && ids[i] == id;
  }

  function Rank<V>(f: Phase<V>): nat {
    match f
    case Queued => 8
    case Spawned => 5
    case Calling => 4
    case Replied(_) => 3
    case Recorded(_) => 2
    case Released(_) => 1
    case Done(_) => 0
  }

  function TotalRank<V>(phases: seq<Phase<V>>): nat {
    if phases == [] then 0 else TotalRank(phases[..|phases| - 1]) + Rank(phases[|phases| - 1])
  }

  /** Remaining ids and live goroutines, weighted by the steps they still need. */
  function Measure<V>(p: Pool<V>): nat {
    TotalRank(p.phases) + (if p.cancelled then 0 else 1)
    + (match p.dispatcher case Selecting => 3 case Holding => 2 case Waiting => 1 case Returned => 0)
  }

  lemma {:induction false} RankAfterUpdate<V>(phases: seq<Phase<V>>, i: nat, f: Phase<V>)
    requires i < |phases|
    ensures TotalRank(phases[i := f]) == TotalRank(phases) - Rank(phases[i]) + Rank(f)
    decreases |phases|
  {
    var n := |phases| - 1;
    if i == n {
      assert phases[i := f][..n] == phases[..n];
    } else {
      RankAfterUpdate(phases[..n], i, f);
      assert phases[i := f][..n] == phases[..n][i := f];
    }
  }

  lemma PhaseLowersMeasure<V>(p: Pool<V>, p': Pool<V>, i: nat, f: Phase<V>)
    requires i < |p.phases| && p'.phases == p.phases[i := f] && Rank(f) < Rank(p.phases[i])
    requires p'.dispatcher == p.dispatcher && p'.cancelled == p.cancelled
    ensures Measure(p') < Measure(p)
  {
    RankAfterUpdate(p.phases, i, f);
  }

  lemma SpawnLowersMeasure<V>(p: Pool<V>, ids: seq<Id>, limit: nat)
    requires ShapeInv(p, ids) && Enabled(p, ids, limit, Spawn)
    ensures Measure(Apply(p, ids, limit, Spawn)) < Measure(p)
  {
    RankAfterUpdate(p.phases, p.next, Spawned);
  }

  /** Every step, of the pool or a cancellation, lowers the measure: no schedule runs forever. */
  lemma {:induction false} StepsTerminate<V>(p: Pool<V>, ids: seq<Id>, limit: nat, a: Action<V>)
    requires Inv(p, ids, limit) && Enabled(p, ids, limit, a)
    ensures Measure(Apply(p, ids, limit, a)) < Measure(p)
  {
    var p' := Apply(p, ids, limit, a);
    match a
    case Spawn => SpawnLowersMeasure(p, ids, limit);
    case StartCall(i) => PhaseLowersMeasure(p, p', i, Calling);
    case Reply(i, reply) => PhaseLowersMeasure(p, p', i, Replied(reply));
    case Record(i) => PhaseLowersMeasure(p, p', i, Recorded(p.phases[i].reply));
    case Release(i) => PhaseLowersMeasure(p, p', i, Released(p.phases[i].reply));
    case Finish(i) => PhaseLowersMeasure(p, p', i, Done(p.phases[i].reply));
    case _ =>
  }

  lemma IdleSlotsFree<V>(p: Pool<V>, ids: seq<Id>, limit: nat)
    requires Inv(p, ids, limit) && p.dispatcher.Selecting?
    requires forall i :: 0 <= i < |ids| ==> p.phases[i].Queued? || p.phases[i].Done?
    ensures p.slots == {}
  {
    forall i: int
      ensures i !in p.slots
    {
      var held := i in p.slots;
    }
  }

  /** And no schedule gets stuck before the return, given at least one slot and services that answer. */
  lemma NeverStuck<V>(p: Pool<V>, ids: seq<Id>, limit: nat) returns (a: Action<V>)
    requires Inv(p, ids, limit) && limit >= 1 && !p.dispatcher.Returned?
    ensures Enabled(p, ids, limit, a) && !a.Cancel?
  {
    if i :| 0 <= i < |ids| && !p.phases[i].Queued? && !p.phases[i].Done? {
      match p.phases[i]
      case Spawned => a := StartCall(i);
      case Calling => a := Reply(i, None);
      case Replied(_) => a := Record(i);
      case Recorded(_) => a := Release(i);
      case Released(_) => a := Finish(i);
    } else {
      match p.dispatcher
      case Holding => a := Spawn;
      case Waiting => a := Return;
      case Selecting =>
        IdleSlotsFree(p, ids, limit);
        a := if p.next < |ids| then Take else Exhaust;
    }
  }

  /** After a cancellation the pool can return without dispatching another id, however few slots there are. */
  lemma CancelReturns<V>(p: Pool<V>, ids: seq<Id>, limit: nat) returns (a: Action<V>)
    requires Inv(p, ids, limit) && p.cancelled && !p.dispatcher.Returned?
    ensures Enabled(p, ids, limit, a) && !a.Take? && !a.Cancel?
  {
    if p.dispatcher.Selecting? && p.next < |ids| {
      a := Break;
    } else if i :| 0 <= i < |ids| && !p.phases[i].Queued? && !p.phases[i].Done? {
      match p.phases[i]
      case Spawned => a := StartCall(i);
      case Calling => a := Reply(i, None);
      case Replied(_) => a := Record(i);
      case Recorded(_) => a := Release(i);
      case Released(_) => a := Finish(i);
    } else {
      match p.dispatcher
      case Holding => a := Spawn;
      case Waiting => a := Return;
      case Selecting => a := Exhaust;
    }
  }
}
