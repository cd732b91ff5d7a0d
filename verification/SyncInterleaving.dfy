/**
 SyncOrder, SyncActiveOrders and PreWarmCache on any number of pods, interleaved at every cache
 access and external call over one shared cache. The mapping an order has in Order Service is
 stable; everything may fail.
 */
module SyncInterleaving {
  import opened Domain
  import opened MemoryCache
  import P = PollerService

  /** What does not change during a run: who delivers what, and the mapping TTL. */
  datatype Params = Params(assign: map<Id, Id>, mappingTtl: nat)

  /** Where one execution of SyncOrder stands. */
  datatype Stage =
    | Begun
    | Missed                                        // no mapping read, about to call Order Service
    | Asking                                        // Order Service call in flight
    | Resolved(courierId: Id)                       // answered, about to cache the mapping
    | Mapped(courierId: Id)                         // about to call Courier Service
    | Located(courierId: Id, coordinates: Coordinates)
    | Ended                                         // result ready, still in the singleflight group
    | Left

  datatype Execution = Execution(pod: string, id: Id, stage: Stage) {
    function Key(): (string, Id) {
      (pod, id)
    }
  }

  /** A cycle starts out resolving, a pre-warm registering. */
  datatype BatchStage = Resolving | Registering | Polling | Writing

  /**
   A SyncActiveOrders or PreWarmCache run with its local maps orderToCourier and
   courierCoordinates; `asked` are the orders it ever asked Order Service for, `asking` those
   whose call is in flight.
   */
  datatype Batch = Batch(
    pod: string, stage: BatchStage, known: map<Id, Id>, asked: set<Id>, asking: set<Id>, answers: map<Id, Coordinates>)

  /** The singleflight group of a pod maps an order to its running execution. */
  type Group = map<(string, Id), nat>

  datatype Shared = Shared(
    now: Time,
    mappings: map<Id, Item<Id>>,
    locations: map<Id, CourierLocation>,
    answered: set<(Id, Coordinates)>           // everything Courier Service ever returned
  )

  /** `storedUntil` is when the mapping last cached by an execution on that pod runs out; `faulty` that a cache access failed. */
  datatype World = World(
    shared: Shared,
    executions: seq<Execution>,
    group: Group,
    batches: seq<Batch>,
    storedUntil: map<(string, Id), Time>,
    faulty: bool
  )

  const START := World(Shared(0, map[], map[], {}), [], map[], [], map[], false)

  datatype Step =
    | ReadMapping(readFails: bool)
    | CallOrder
    | OrderReply(found: bool)
    | CacheMapping(writeFails: bool)
    | AskCourier(coordinates: Option<Coordinates>)
    | WriteLocation
    | Leave

  datatype BatchStep =
    | LearnCached(id: Id)
    | CallOrderFor(id: Id)                        // in fetchMissingOrderCouriers, past the singleflight
    | OrderReplyFor(id: Id, found: bool)
    | CacheKnown(id: Id)
    | StartPolling
    | Poll(courierId: Id, reply: Coordinates)
    | StartWriting
    | Write(id: Id, at: Time)

  datatype Action =
    | Call(pod: string, id: Id)                   // syncSF.Do
    | Execute(i: nat, step: Step)
    | BeginCycle(pod: string)
    | BeginPreWarm(pod: string, orders: map<Id, Id>)
    | RunBatch(b: nat, batchStep: BatchStep)
    | Tick(later: Time)
    | ExpireMapping(id: Id)
    | ExpireLocation(id: Id)

  predicate CanExecute(w: World, prm: Params, e: Execution, step: Step) {
    match step
    case ReadMapping(_) => e.stage.Begun?
    case CallOrder => e.stage.Missed?
    case OrderReply(found) => e.stage.Asking? && (found ==> e.id in prm.assign)
    case CacheMapping(_) => e.stage.Resolved?
    case AskCourier(_) => e.stage.Mapped?
    case WriteLocation => e.stage.Located?
    case Leave => e.stage.Ended?
  }

  predicate CanRun(w: World, prm: Params, b: Batch, step: BatchStep) {
    match step
    case LearnCached(id) => b.stage.Resolving? && Read(w.shared.mappings, id, w.shared.now).Some?
    case CallOrderFor(id) => b.stage.Resolving? && id !in b.known && id !in b.asked
    case OrderReplyFor(id, found) => b.stage.Resolving? && id in b.asking && (found ==> id in prm.assign)
    case CacheKnown(id) => id in b.known && (b.stage.Registering? || (b.stage.Resolving? && id in b.asked && b.asking == {}))
    case StartPolling => b.stage.Registering? || (b.stage.Resolving? && b.asking == {})
    case Poll(courierId, _) => b.stage.Polling? && courierId in b.known.Values
    case StartWriting => b.stage.Polling?
    case Write(id, _) => b.stage.Writing? && id in b.known && b.known[id] in b.answers
  }

  predicate Enabled(w: World, prm: Params, a: Action) {
    match a
    case Call(_, _) => true
    case Execute(i, step) => i < |w.executions| && CanExecute(w, prm, w.executions[i], step)
    case BeginCycle(_) => true
    case BeginPreWarm(_, orders) => forall id :: id in orders ==> id in prm.assign && orders[id] == prm.assign[id]
    case RunBatch(b, step) => b < |w.batches| && CanRun(w, prm, w.batches[b], step)
    case Tick(later) => w.shared.now <= later
    case ExpireMapping(id) => id in w.shared.mappings && w.shared.mappings[id].IsExpired(w.shared.now)
    case ExpireLocation(id) => true
  }

  function PutMapping(s: Shared, id: Id, courierId: Id, ttl: nat): Shared {
    s.(mappings := s.mappings[id := Item(courierId, Expiry(s.now, ttl))])
  }

  /** The next stage of an execution. */
  function NextStage(w: World, prm: Params, e: Execution, step: Step): Stage
    requires CanExecute(w, prm, e, step)
  {
    match step
    case ReadMapping(readFails) =>
      var cached := Read(w.shared.mappings, e.id, w.shared.now);
      if cached.Some? && !readFails then Mapped(cached.value) else Missed
    case CallOrder => Asking
    case OrderReply(found) => if found then Resolved(prm.assign[e.id]) else Ended
    case CacheMapping(_) => Mapped(e.stage.courierId)
    case AskCourier(coordinates) => if coordinates.Some? then Located(e.stage.courierId, coordinates.value) else Ended
    case WriteLocation => Ended
    case Leave => Left
  }

  function AfterExecute(w: World, prm: Params, i: nat, step: Step): World
    requires i < |w.executions| && CanExecute(w, prm, w.executions[i], step)
  {
    var e := w.executions[i];
    var moved := w.(executions := w.executions[i := Execution(e.pod, e.id, NextStage(w, prm, e, step))]);
    match step
    case ReadMapping(readFails) => moved.(faulty := w.faulty || readFails)
    case CallOrder => moved
    case OrderReply(_) => moved
    case CacheMapping(true) => moved.(faulty := true)
    case CacheMapping(false) =>
      moved.(shared := PutMapping(w.shared, e.id, e.stage.courierId, prm.mappingTtl),
             storedUntil := w.storedUntil[e.Key() := w.shared.now + prm.mappingTtl])
    case AskCourier(coordinates) =>
      if coordinates.None? then moved
      else moved.(shared := w.shared.(answered := w.shared.answered + {(e.stage.courierId, coordinates.value)}))
    case WriteLocation =>
      var location := CourierLocation(e.id, e.stage.courierId, e.stage.coordinates, w.shared.now);
      moved.(shared := w.shared.(locations := w.shared.locations[e.id := location]))
    case Leave => moved.(group := w.group - {e.Key()})
  }

  function AfterBatch(w: World, prm: Params, b: nat, step: BatchStep): World
    requires b < |w.batches| && CanRun(w, prm, w.batches[b], step)
  {
    var t := w.batches[b];
    match step
    case LearnCached(id) =>
      w.(batches := w.batches[b := t.(known := t.known[id := w.shared.mappings[id].value])])
    case CallOrderFor(id) =>
      w.(batches := w.batches[b := t.(asked := t.asked + {id}, asking := t.asking + {id})])
    case OrderReplyFor(id, found) =>
      w.(batches := w.batches[b := t.(asking := t.asking - {id},
                                      known := if found then t.known[id := prm.assign[id]] else t.known)])
    case CacheKnown(id) => w.(shared := PutMapping(w.shared, id, t.known[id], prm.mappingTtl))
    case StartPolling => w.(batches := w.batches[b := t.(stage := Polling)])
    case Poll(courierId, reply) =>
      w.(batches := w.batches[b := t.(answers := t.answers[courierId := reply])],
         shared := w.shared.(answered := w.shared.answered + {(courierId, reply)}))
    case StartWriting => w.(batches := w.batches[b := t.(stage := Writing)])
    case Write(id, at) =>
      var location := CourierLocation(id, t.known[id], t.answers[t.known[id]], at);
      w.(shared := w.shared.(locations := w.shared.locations[id := location]))
  }

  /** syncSF.Do: join the running execution of this order on this pod, or become it. */
  function AfterCall(w: World, pod: string, id: Id): World {
    if (pod, id) in w.group then w
    else w.(group := w.group[(pod, id) := |w.executions|], executions := w.executions + [Execution(pod, id, Begun)])
  }

  function Apply(w: World, prm: Params, a: Action): World
    requires Enabled(w, prm, a)
  {
    match a
    case Call(pod, id) => AfterCall(w, pod, id)
    case Execute(i, step) => AfterExecute(w, prm, i, step)
    case BeginCycle(pod) => w.(batches := w.batches + [Batch(pod, Resolving, map[], {}, {}, map[])])
    case BeginPreWarm(pod, orders) => w.(batches := w.batches + [Batch(pod, Registering, orders, {}, {}, map[])])
    case RunBatch(b, step) => AfterBatch(w, prm, b, step)
    case Tick(later) => w.(shared := w.shared.(now := later))
    case ExpireMapping(id) => w.(shared := w.shared.(mappings := w.shared.mappings - {id}))
    case ExpireLocation(id) => w.(shared := w.shared.(locations := w.shared.locations - {id}))
  }

  predicate Runs(from: World, prm: Params, actions: seq<Action>, to: World)
    decreases |actions|
  {
    if actions == [] then from == to
    else
      && Enabled(from, prm, actions[0])
      && Runs(Apply(from, prm, actions[0]), prm, actions[1..], to)
  }

  // ---------- Provenance ----------

  predicate Assigned(prm: Params, id: Id, courierId: Id) {
    id in prm.assign && prm.assign[id] == courierId
  }

  ghost predicate GoodShared(s: Shared, prm: Params) {
    && (forall id :: id in s.mappings ==> Assigned(prm, id, s.mappings[id].value))
    && (forall id :: id in s.locations ==> GoodLocation(s, prm, id, s.locations[id]))
  }

  predicate GoodLocation(s: Shared, prm: Params, id: Id, l: CourierLocation) {
    l.orderId == id && Assigned(prm, id, l.courierId) && (l.courierId, l.coordinates) in s.answered
  }

  predicate GoodExecution(s: Shared, prm: Params, e: Execution) {
    match e.stage
    case Resolved(c) => Assigned(prm, e.id, c)
    case Mapped(c) => Assigned(prm, e.id, c)
    case Located(c, coordinates) => Assigned(prm, e.id, c) && (c, coordinates) in s.answered
    case _ => true
  }

  ghost predicate GoodBatch(s: Shared, prm: Params, b: Batch) {
    && (forall id :: id in b.known ==> Assigned(prm, id, b.known[id]))
    && (forall c :: c in b.answers ==> (c, b.answers[c]) in s.answered)
  }

  ghost predicate Provenance(w: World, prm: Params) {
    && GoodShared(w.shared, prm)
    && (forall i :: 0 <= i < |w.executions| ==> GoodExecution(w.shared, prm, w.executions[i]))
    && (forall b :: 0 <= b < |w.batches| ==> GoodBatch(w.shared, prm, w.batches[b]))
  }

  lemma ExecuteKeepsProvenance(w: World, prm: Params, i: nat, step: Step)
    requires Provenance(w, prm) && i < |w.executions| && CanExecute(w, prm, w.executions[i], step)
    ensures Provenance(AfterExecute(w, prm, i, step), prm)
  {
  }

  lemma BatchKeepsProvenance(w: World, prm: Params, b: nat, step: BatchStep)
    requires Provenance(w, prm) && b < |w.batches| && CanRun(w, prm, w.batches[b], step)
    ensures Provenance(AfterBatch(w, prm, b, step), prm)
  {
  }

  lemma {:induction false} StepKeepsProvenance(w: World, prm: Params, a: Action)
    requires Provenance(w, prm) && Enabled(w, prm, a)
    ensures Provenance(Apply(w, prm, a), prm)
  {
    match a
    case Execute(i, step) => ExecuteKeepsProvenance(w, prm, i, step);
    case RunBatch(b, step) => BatchKeepsProvenance(w, prm, b, step);
    case _ =>
  }

  lemma {:induction false} RunKeepsProvenance(from: World, prm: Params, actions: seq<Action>, to: World)
    requires Provenance(from, prm) && Runs(from, prm, actions, to)
    ensures Provenance(to, prm)
    decreases |actions|
  {
    if actions != [] {
      StepKeepsProvenance(from, prm, actions[0]);
      RunKeepsProvenance(Apply(from, prm, actions[0]), prm, actions[1..], to);
    }
  }

  /**
   In every interleaving, whatever fails: a cached mapping is the order's assignment, and a
   cached location is of its own order, of the assigned courier, and shows coordinates that
   Courier Service returned for that courier.
   */
  lemma EverythingCachedIsGenuine(prm: Params, actions: seq<Action>, w: World, id: Id)
    requires Runs(START, prm, actions, w)
    ensures id in w.shared.mappings ==> Assigned(prm, id, w.shared.mappings[id].value)
    ensures id in w.shared.locations ==> GoodLocation(w.shared, prm, id, w.shared.locations[id])
  {
    RunKeepsProvenance(START, prm, actions, w);
  }

  // ---------- Singleflight and the mapping cache ----------

  predicate Active(e: Execution) {
    !e.stage.Left?
  }

  /** An active execution is the one its pod's group points to. */
  ghost predicate GroupInv(w: World) {
    && (forall i :: 0 <= i < |w.executions| && Active(w.executions[i]) ==> PointsTo(w.group, w.executions[i].Key(), i))
    && (forall key :: key in w.group ==> w.group[key] < |w.executions| && key == w.executions[w.group[key]].Key())
  }

  predicate PointsTo(group: Group, key: (string, Id), i: nat) {
    key in group && group[key] == i
  }

  /** Mappings never outlive one TTL from now, so a later write never shortens one. */
  ghost predicate ExpiryInv(w: World, prm: Params) {
    && w.shared.now >= 0
    && (forall id :: id in w.shared.mappings ==>
          w.shared.mappings[id].expiresAt <= w.shared.now + prm.mappingTtl
          && w.shared.mappings[id].expiresAt > 0)
    && (forall key :: key in w.storedUntil ==> w.storedUntil[key] <= w.shared.now + prm.mappingTtl)
  }

  /** The execution has read a miss and has no answer from Order Service yet. */
  predicate NeedsOrder(e: Execution) {
    e.stage.Missed? || e.stage.Asking?
  }

  /** No running execution of that pod and order needs Order Service. */
  predicate NoneMissed(w: World, key: (string, Id)) {
    key in w.group && w.group[key] < |w.executions| ==> !NeedsOrder(w.executions[w.group[key]])
  }

  predicate MappedUntil(s: Shared, id: Id, until: Time) {
    id in s.mappings && s.mappings[id].expiresAt >= until
  }

  /** Until then the mapping is readable, and no execution of that pod and order is about to call Order Service. */
  ghost predicate MappedInv(w: World) {
    forall key :: key in w.storedUntil && w.shared.now <= w.storedUntil[key] ==>
      MappedUntil(w.shared, key.1, w.storedUntil[key]) && NoneMissed(w, key)
  }

  ghost predicate FlightInv(w: World, prm: Params) {
    GroupInv(w) && ExpiryInv(w, prm) && (w.faulty || MappedInv(w))
  }

  lemma ExecuteKeepsGroup(w: World, prm: Params, i: nat, step: Step)
    requires GroupInv(w) && i < |w.executions| && CanExecute(w, prm, w.executions[i], step)
    ensures GroupInv(AfterExecute(w, prm, i, step))
  {
    var w' := AfterExecute(w, prm, i, step);
    var own := w.executions[i].Key();
    assert PointsTo(w.group, own, i);
    assert w'.group == if step.Leave? then w.group - {own} else w.group;
    assert forall k :: 0 <= k < |w.executions| ==> w'.executions[k].Key() == w.executions[k].Key();
    forall k | 0 <= k < |w'.executions| && Active(w'.executions[k])
      ensures PointsTo(w'.group, w'.executions[k].Key(), k)
    {
      assert Active(w.executions[k]) && PointsTo(w.group, w.executions[k].Key(), k);
    }
  }

  lemma ExecuteKeepsExpiry(w: World, prm: Params, i: nat, step: Step)
    requires ExpiryInv(w, prm) && prm.mappingTtl > 0 && i < |w.executions| && CanExecute(w, prm, w.executions[i], step)
    ensures ExpiryInv(AfterExecute(w, prm, i, step), prm)
  {
  }

  lemma ExecuteKeepsMappings(w: World, prm: Params, i: nat, step: Step, id: Id, until: Time)
    requires i < |w.executions| && CanExecute(w, prm, w.executions[i], step)
    requires MappedUntil(w.shared, id, until) && until <= w.shared.now + prm.mappingTtl && prm.mappingTtl > 0
    ensures MappedUntil(AfterExecute(w, prm, i, step).shared, id, until)
  {
  }

  /** An execution reads a miss only once the mapping it knows of has run out. */
  lemma ExecuteKeepsNoneMissed(w: World, prm: Params, i: nat, step: Step, key: (string, Id), until: Time)
    requires GroupInv(w) && i < |w.executions| && CanExecute(w, prm, w.executions[i], step)
    requires MappedUntil(w.shared, key.1, until) && w.shared.now <= until && NoneMissed(w, key)
    requires !AfterExecute(w, prm, i, step).faulty
    ensures NoneMissed(AfterExecute(w, prm, i, step), key)
  {
    var w' := AfterExecute(w, prm, i, step);
    if key in w'.group {
      assert w'.group[key] == w.group[key];
      assert key == w.executions[w.group[key]].Key();
    }
  }

  lemma ExecuteKeepsMapped(w: World, prm: Params, i: nat, step: Step)
    requires GroupInv(w) && ExpiryInv(w, prm) && MappedInv(w) && prm.mappingTtl > 0
    requires i < |w.executions| && CanExecute(w, prm, w.executions[i], step)
    ensures var w' := AfterExecute(w, prm, i, step); w'.faulty || MappedInv(w')
  {
    var w' := AfterExecute(w, prm, i, step);
    var own := w.executions[i].Key();
    assert PointsTo(w.group, own, i);
    if !w'.faulty {
      forall key | key in w'.storedUntil && w'.shared.now <= w'.storedUntil[key]
        ensures MappedUntil(w'.shared, key.1, w'.storedUntil[key]) && NoneMissed(w', key)
      {
        if step.CacheMapping? && key == own {
          assert w'.group == w.group && w'.executions[i].stage.Mapped?;
        } else {
          assert w'.storedUntil[key] == w.storedUntil[key];
          ExecuteKeepsMappings(w, prm, i, step, key.1, w.storedUntil[key]);
          ExecuteKeepsNoneMissed(w, prm, i, step, key, w.storedUntil[key]);
        }
      }
    }
  }

  lemma CallKeepsFlight(w: World, prm: Params, pod: string, id: Id)
    requires FlightInv(w, prm)
    ensures FlightInv(AfterCall(w, pod, id), prm)
  {
  }

  lemma SharedKeepsFlight(w: World, w': World, prm: Params)
    requires FlightInv(w, prm) && prm.mappingTtl > 0
    requires w'.executions == w.executions && w'.group == w.group && w'.storedUntil == w.storedUntil && w'.faulty == w.faulty
    requires w.shared.now <= w'.shared.now
    requires forall id :: id in w'.shared.mappings ==>
      (id in w.shared.mappings && w'.shared.mappings[id] == w.shared.mappings[id])
      || w'.shared.mappings[id].expiresAt == w'.shared.now + prm.mappingTtl
    requires forall id :: id in w.shared.mappings && id !in w'.shared.mappings ==> w.shared.mappings[id].IsExpired(w.shared.now)
    ensures FlightInv(w', prm)
  {
  }

  lemma BatchKeepsFlight(w: World, prm: Params, b: nat, step: BatchStep)
    requires FlightInv(w, prm) && prm.mappingTtl > 0 && b < |w.batches| && CanRun(w, prm, w.batches[b], step)
    ensures FlightInv(AfterBatch(w, prm, b, step), prm)
  {
    SharedKeepsFlight(w, AfterBatch(w, prm, b, step), prm);
  }

  lemma {:induction false} StepKeepsFlight(w: World, prm: Params, a: Action)
    requires FlightInv(w, prm) && Enabled(w, prm, a) && prm.mappingTtl > 0
    ensures FlightInv(Apply(w, prm, a), prm)
  {
    match a
    case Call(pod, id) => CallKeepsFlight(w, prm, pod, id);
    case Execute(i, step) =>
      ExecuteKeepsGroup(w, prm, i, step);
      ExecuteKeepsExpiry(w, prm, i, step);
      if !w.faulty {
        ExecuteKeepsMapped(w, prm, i, step);
      }
    case RunBatch(b, step) => BatchKeepsFlight(w, prm, b, step);
    case _ => SharedKeepsFlight(w, Apply(w, prm, a), prm);
  }

  lemma {:induction false} RunKeepsFlight(from: World, prm: Params, actions: seq<Action>, to: World)
    requires FlightInv(from, prm) && Runs(from, prm, actions, to) && prm.mappingTtl > 0
    ensures FlightInv(to, prm)
    decreases |actions|
  {
    if actions != [] {
      StepKeepsFlight(from, prm, actions[0]);
      RunKeepsFlight(Apply(from, prm, actions[0]), prm, actions[1..], to);
    }
  }

  lemma CallKeepsGroup(w: World, pod: string, id: Id)
    requires GroupInv(w)
    ensures GroupInv(AfterCall(w, pod, id))
  {
  }

  lemma StepKeepsGroup(w: World, prm: Params, a: Action)
    requires GroupInv(w) && Enabled(w, prm, a)
    ensures GroupInv(Apply(w, prm, a))
  {
    match a
    case Call(pod, id) => CallKeepsGroup(w, pod, id);
    case Execute(i, step) => ExecuteKeepsGroup(w, prm, i, step);
    case _ =>
      var w' := Apply(w, prm, a);
      assert w'.group == w.group && w'.executions == w.executions;
  }

  lemma {:induction false} RunKeepsGroup(from: World, prm: Params, actions: seq<Action>, to: World)
    requires GroupInv(from) && Runs(from, prm, actions, to)
    ensures GroupInv(to)
    decreases |actions|
  {
    if actions != [] {
      StepKeepsGroup(from, prm, actions[0]);
      RunKeepsGroup(Apply(from, prm, actions[0]), prm, actions[1..], to);
    }
  }

  /** What the singleflight group gives: executions of SyncOrder for one order on one pod never overlap. */
  lemma ExecutionsNeverOverlap(prm: Params, actions: seq<Action>, w: World, i: nat, j: nat)
    requires Runs(START, prm, actions, w)
    requires i < |w.executions| && j < |w.executions| && Active(w.executions[i]) && Active(w.executions[j])
    requires w.executions[i].Key() == w.executions[j].Key()
    ensures i == j
  {
    RunKeepsGroup(START, prm, actions, w);
    assert PointsTo(w.group, w.executions[i].Key(), i) && PointsTo(w.group, w.executions[j].Key(), j);
  }

  /**
   Once an execution of SyncOrder on a pod has cached an order's mapping, no SyncOrder there
   calls Order Service for that order, or waits for its answer, until that mapping has run out,
   as long as cache accesses succeed.
   */
  lemma OrderServiceOncePerTtl(prm: Params, actions: seq<Action>, w: World, i: nat)
    requires Runs(START, prm, actions, w) && prm.mappingTtl > 0 && !w.faulty
    requires i < |w.executions| && NeedsOrder(w.executions[i])
    requires w.executions[i].Key() in w.storedUntil
    ensures w.shared.now > w.storedUntil[w.executions[i].Key()]
  {
    RunKeepsFlight(START, prm, actions, w);
    assert PointsTo(w.group, w.executions[i].Key(), i);
  }

  // ---------- Order Service calls in flight at once ----------

  /** Who has an Order Service call in flight. */
  datatype Caller = ByExecution(i: nat) | ByBatch(b: nat)

  predicate Asks(w: World, c: Caller, pod: string, id: Id) {
    match c
    case ByExecution(i) => i < |w.executions| && w.executions[i].Key() == (pod, id) && w.executions[i].stage.Asking?
    case ByBatch(b) => b < |w.batches| && w.batches[b].pod == pod && id in w.batches[b].asking
  }

  /** Two calls for one order are in flight on one pod. */
  predicate Overlap(w: World, c: Caller, d: Caller, pod: string, id: Id) {
    c != d && Asks(w, c, pod, id) && Asks(w, d, pod, id)
  }

  /** While SyncOrder asks for an order, a second call for it is in flight if and only if a cycle on that pod asks too. */
  lemma SecondCallIffCycleAsks(prm: Params, actions: seq<Action>, w: World, i: nat, pod: string, id: Id)
    requires Runs(START, prm, actions, w) && Asks(w, ByExecution(i), pod, id)
    ensures (exists d :: Overlap(w, ByExecution(i), d, pod, id)) <==> exists b :: Asks(w, ByBatch(b), pod, id)
  {
    forall d | Overlap(w, ByExecution(i), d, pod, id)
      ensures d.ByBatch?
    {
      if d.ByExecution? {
        ExecutionsNeverOverlap(prm, actions, w, i, d.i);
      }
    }
    if b :| Asks(w, ByBatch(b), pod, id) {
      assert Overlap(w, ByExecution(i), ByBatch(b), pod, id);
    }
  }

  /** SyncOrder reads a miss and calls; a cycle on the same pod finds the order missing and calls past the singleflight. */
  lemma CycleCallsBesideSyncOrder(prm: Params, pod: string, id: Id) returns (actions: seq<Action>, w: World)
    ensures Runs(START, prm, actions, w)
    ensures actions == [Call(pod, id), Execute(0, ReadMapping(false)), Execute(0, CallOrder),
                        BeginCycle(pod), RunBatch(0, CallOrderFor(id))]
    ensures Overlap(w, ByExecution(0), ByBatch(0), pod, id)
  {
    var w1 := Apply(START, prm, Call(pod, id));
    var w2 := Apply(w1, prm, Execute(0, ReadMapping(false)));
    assert w2.executions == [Execution(pod, id, Missed)];
    var w3 := Apply(w2, prm, Execute(0, CallOrder));
    var w4 := Apply(w3, prm, BeginCycle(pod));
    w := Apply(w4, prm, RunBatch(0, CallOrderFor(id)));
    RunsOne(w4, prm, RunBatch(0, CallOrderFor(id)), [], w);
    RunsOne(w3, prm, BeginCycle(pod), [RunBatch(0, CallOrderFor(id))], w);
    actions := [BeginCycle(pod), RunBatch(0, CallOrderFor(id))];
    RunsOne(w2, prm, Execute(0, CallOrder), actions, w);
    actions := [Execute(0, CallOrder)] + actions;
    RunsOne(w1, prm, Execute(0, ReadMapping(false)), actions, w);
    actions := [Execute(0, ReadMapping(false))] + actions;
    RunsOne(START, prm, Call(pod, id), actions, w);
    actions := [Call(pod, id)] + actions;
  }

  lemma TwoCyclesCall(prm: Params, pod: string, id: Id) returns (actions: seq<Action>, w: World)
    ensures Runs(START, prm, actions, w) && Overlap(w, ByBatch(0), ByBatch(1), pod, id)
  {
    var w1 := Apply(START, prm, BeginCycle(pod));
    var w2 := Apply(w1, prm, BeginCycle(pod));
    var w3 := Apply(w2, prm, RunBatch(0, CallOrderFor(id)));
    w := Apply(w3, prm, RunBatch(1, CallOrderFor(id)));
    RunsOne(w3, prm, RunBatch(1, CallOrderFor(id)), [], w);
    actions := [RunBatch(0, CallOrderFor(id)), RunBatch(1, CallOrderFor(id))];
    RunsOne(w2, prm, RunBatch(0, CallOrderFor(id)), [RunBatch(1, CallOrderFor(id))], w);
    RunsOne(w1, prm, BeginCycle(pod), actions, w);
    actions := [BeginCycle(pod)] + actions;
    RunsOne(START, prm, BeginCycle(pod), actions, w);
    actions := [BeginCycle(pod)] + actions;
  }

  lemma RunsOne(from: World, prm: Params, a: Action, rest: seq<Action>, to: World)
    requires Enabled(from, prm, a) && Runs(Apply(from, prm, a), prm, rest, to)
    ensures Runs(from, prm, [a] + rest, to)
  {
  }

  /** Some run has, at its end, two such calls in flight, made by a batch or by SyncOrder as asked for. */
  ghost predicate CanOverlap(prm: Params, pod: string, id: Id, firstIsBatch: bool, secondIsBatch: bool) {
    exists actions: seq<Action>, w: World, c: Caller, d: Caller ::
      Runs(START, prm, actions, w) && Overlap(w, c, d, pod, id) && c.ByBatch? == firstIsBatch && d.ByBatch? == secondIsBatch
  }

  /**
   When "Order Service is called exactly once for concurrent requests" holds: two calls for one
   order on one pod can be in flight at once if and only if at least one of them is a cycle's.
   */
  lemma CallsOverlapIffOneIsACycles(prm: Params, pod: string, id: Id, firstIsBatch: bool, secondIsBatch: bool)
    ensures CanOverlap(prm, pod, id, firstIsBatch, secondIsBatch) <==> firstIsBatch || secondIsBatch
  {
    if CanOverlap(prm, pod, id, firstIsBatch, secondIsBatch) && !firstIsBatch {
      var actions: seq<Action>, w: World, c: Caller, d: Caller :|
        Runs(START, prm, actions, w) && Overlap(w, c, d, pod, id) && c.ByBatch? == firstIsBatch && d.ByBatch? == secondIsBatch;
      SecondCallIffCycleAsks(prm, actions, w, c.i, pod, id);
      if d.ByExecution? {
        ExecutionsNeverOverlap(prm, actions, w, c.i, d.i);
      }
    }
    var mixed, w := CycleCallsBesideSyncOrder(prm, pod, id);
    assert Overlap(w, ByBatch(0), ByExecution(0), pod, id);
    var cycles, v := TwoCyclesCall(prm, pod, id);
  }

  // ---------- One execution by itself is SyncOrder ----------

  /** The step an execution takes next when cache accesses succeed and the services answer like this. */
  function NextStep(prm: Params, positions: map<Id, Coordinates>, e: Execution): Step
    requires Active(e)
  {
    match e.stage
    case Begun => ReadMapping(false)
    case Missed => CallOrder
    case Asking => OrderReply(e.id in prm.assign)
    case Resolved(_) => CacheMapping(false)
    case Mapped(c) => AskCourier(if c in positions then Some(positions[c]) else None)
    case Located(_, _) => WriteLocation
    case Ended => Leave
  }

  function StepsLeft(stage: Stage): nat {
    match stage
    case Begun => 7
    case Missed => 6
    case Asking => 5
    case Resolved(_) => 4
    case Mapped(_) => 3
    case Located(_, _) => 2
    case Ended => 1
    case Left => 0
  }

  function NextWorld(w: World, prm: Params, positions: map<Id, Coordinates>, i: nat): World
    requires i < |w.executions| && Active(w.executions[i])
  {
    AfterExecute(w, prm, i, NextStep(prm, positions, w.executions[i]))
  }

  /** Execution i runs to its end while everything else pauses. */
  function Alone(w: World, prm: Params, positions: map<Id, Coordinates>, i: nat): World
    requires i < |w.executions|
    decreases if i < |w.executions| then StepsLeft(w.executions[i].stage) else 0
  {
    if w.executions[i].stage.Left? then w else Alone(NextWorld(w, prm, positions, i), prm, positions, i)
  }

  lemma {:induction false} AloneRuns(w: World, prm: Params, positions: map<Id, Coordinates>, i: nat) returns (actions: seq<Action>)
    requires i < |w.executions|
    ensures Runs(w, prm, actions, Alone(w, prm, positions, i))
    ensures forall a :: a in actions ==> a.Execute? && a.i == i
    decreases StepsLeft(w.executions[i].stage)
  {
    if w.executions[i].stage.Left? {
      actions := [];
    } else {
      var rest := AloneRuns(NextWorld(w, prm, positions, i), prm, positions, i);
      var a := Execute(i, NextStep(prm, positions, w.executions[i]));
      RunsOne(w, prm, a, rest, Alone(w, prm, positions, i));
      actions := [a] + rest;
    }
  }

  /** What a finished execution leaves of the world: its order's entries, and nobody in its place in the group. */
  ghost predicate Leaves(w: World, w': World, i: nat, mappings: map<Id, Item<Id>>, locations: map<Id, CourierLocation>)
    requires i < |w.executions|
  {
    && w'.shared.mappings == mappings && w'.shared.locations == locations && w'.shared.now == w.shared.now
    && w'.group == w.group - {w.executions[i].Key()} && w'.batches == w.batches
    && |w'.executions| == |w.executions| && w'.executions[i].stage.Left?
    && forall k :: 0 <= k < |w.executions| && k != i ==> w'.executions[k] == w.executions[k]
  }

  lemma AloneFromEnded(w: World, prm: Params, positions: map<Id, Coordinates>, i: nat)
    requires i < |w.executions| && w.executions[i].stage.Ended?
    ensures Leaves(w, Alone(w, prm, positions, i), i, w.shared.mappings, w.shared.locations)
  {
  }

  lemma AloneFromMapped(w: World, prm: Params, positions: map<Id, Coordinates>, i: nat)
    requires i < |w.executions| && w.executions[i].stage.Mapped?
    ensures var id, c := w.executions[i].id, w.executions[i].stage.courierId;
      Leaves(w, Alone(w, prm, positions, i), i, w.shared.mappings,
             if c in positions then w.shared.locations[id := CourierLocation(id, c, positions[c], w.shared.now)]
             else w.shared.locations)
  {
    var w1 := NextWorld(w, prm, positions, i);
    if w1.executions[i].stage.Located? {
      AloneFromEnded(NextWorld(w1, prm, positions, i), prm, positions, i);
    } else {
      AloneFromEnded(w1, prm, positions, i);
    }
  }

  lemma AloneFromMissed(w: World, prm: Params, positions: map<Id, Coordinates>, i: nat)
    requires i < |w.executions| && w.executions[i].stage.Missed?
    ensures var id := w.executions[i].id;
      if id !in prm.assign then Leaves(w, Alone(w, prm, positions, i), i, w.shared.mappings, w.shared.locations)
      else
        var c := prm.assign[id];
        Leaves(w, Alone(w, prm, positions, i), i,
               w.shared.mappings[id := Item(c, Expiry(w.shared.now, prm.mappingTtl))],
               if c in positions then w.shared.locations[id := CourierLocation(id, c, positions[c], w.shared.now)]
               else w.shared.locations)
  {
    var w2 := NextWorld(NextWorld(w, prm, positions, i), prm, positions, i);
    if w2.executions[i].stage.Ended? {
      AloneFromEnded(w2, prm, positions, i);
    } else {
      AloneFromMapped(NextWorld(w2, prm, positions, i), prm, positions, i);
    }
  }

  /** The cache content as the sequential model sees it; location expiry is not part of this one. */
  function AsStore(s: Shared): Store {
    EMPTY_STORE.(courierMaps := s.mappings, locations := map id | id in s.locations :: Item(s.locations[id], ZERO_TIME))
  }

  function Values(m: map<Id, Item<CourierLocation>>): map<Id, CourierLocation> {
    map id | id in m :: m[id].value
  }

  function SyncOrderOn(s: Shared, prm: Params, positions: map<Id, Coordinates>, cfg: P.Config, id: Id): Store {
    P.SyncOne(AsStore(s), P.External(prm.assign, positions), cfg, id, s.now)
  }

  lemma AloneFromBegun(w: World, prm: Params, positions: map<Id, Coordinates>, i: nat, cfg: P.Config)
    requires i < |w.executions| && w.executions[i].stage.Begun? && cfg.mappingTtl == prm.mappingTtl
    ensures var after := SyncOrderOn(w.shared, prm, positions, cfg, w.executions[i].id);
      Leaves(w, Alone(w, prm, positions, i), i, after.courierMaps, Values(after.locations))
  {
    var w1 := NextWorld(w, prm, positions, i);
    assert Values(AsStore(w.shared).locations) == w.shared.locations;
    if w1.executions[i].stage.Missed? {
      AloneFromMissed(w1, prm, positions, i);
    } else {
      AloneFromMapped(w1, prm, positions, i);
    }
  }

  /**
   A call of SyncOrder that runs by itself, with cache accesses that succeed, does to the cache
   exactly what the sequential SyncOrder does: mapping, location, and the time of both.
   */
  lemma {:induction false} AloneIsSyncOrder(
    w: World, prm: Params, positions: map<Id, Coordinates>, pod: string, id: Id, cfg: P.Config)
    returns (actions: seq<Action>, w': World)
    requires (pod, id) !in w.group && cfg.mappingTtl == prm.mappingTtl
    ensures Runs(w, prm, actions, w')
    ensures var after := SyncOrderOn(w.shared, prm, positions, cfg, id);
      w'.shared.mappings == after.courierMaps && w'.shared.locations == Values(after.locations)
    ensures w'.group == w.group && w'.batches == w.batches
  {
    var i := |w.executions|;
    var w1 := AfterCall(w, pod, id);
    var rest := AloneRuns(w1, prm, positions, i);
    w' := Alone(w1, prm, positions, i);
    RunsOne(w, prm, Call(pod, id), rest, w');
    actions := [Call(pod, id)] + rest;
    AloneFromBegun(w1, prm, positions, i, cfg);
    assert w1.group - {(pod, id)} == w.group;
  }

  // ---------- One cycle by itself is the sequential cycle ----------

  lemma {:induction false} RunsThen(from: World, prm: Params, first: seq<Action>, mid: World, rest: seq<Action>, to: World)
    requires Runs(from, prm, first, mid) && Runs(mid, prm, rest, to)
    ensures Runs(from, prm, first + rest, to)
    decreases |first|
  {
    if first == [] {
      assert first + rest == rest;
    } else {
      RunsThen(Apply(from, prm, first[0]), prm, first[1..], mid, rest, to);
      assert (first + rest)[1..] == first[1..] + rest;
    }
  }

  /** One more step of batch b. */
  lemma RunsBatch(from: World, prm: Params, first: seq<Action>, mid: World, b: nat, step: BatchStep) returns (actions: seq<Action>)
    requires Runs(from, prm, first, mid) && Enabled(mid, prm, RunBatch(b, step))
    ensures actions == first + [RunBatch(b, step)] && Runs(from, prm, actions, AfterBatch(mid, prm, b, step))
  {
    RunsOne(mid, prm, RunBatch(b, step), [], AfterBatch(mid, prm, b, step));
    RunsThen(from, prm, first, mid, [RunBatch(b, step)], AfterBatch(mid, prm, b, step));
    actions := first + [RunBatch(b, step)];
  }

  /** The couriers the orders resolve to, from the cache or Order Service. */
  function KnownOf(s: Shared, prm: Params, ids: set<Id>): map<Id, Id> {
    var ext := P.External(prm.assign, map[]);
    map id | id in ids && P.Resolve(AsStore(s), ext, id, s.now).Some? :: P.Resolve(AsStore(s), ext, id, s.now).value
  }

  function AskedOf(s: Shared, ids: set<Id>): set<Id> {
    set id | id in ids && Read(s.mappings, id, s.now).None?
  }

  function AfterResolving(pod: string, s: Shared, prm: Params, ids: set<Id>): Batch {
    Batch(pod, Resolving, KnownOf(s, prm, ids), AskedOf(s, ids), {}, map[])
  }

  lemma KnownOneMore(s: Shared, prm: Params, ids: set<Id>, id: Id)
    ensures KnownOf(s, prm, ids + {id}) ==
      match P.Resolve(AsStore(s), P.External(prm.assign, map[]), id, s.now)
      case Some(c) => KnownOf(s, prm, ids)[id := c]
      case None => KnownOf(s, prm, ids) - {id}
    ensures AskedOf(s, ids + {id}) ==
      if Read(s.mappings, id, s.now).None? then AskedOf(s, ids) + {id} else AskedOf(s, ids)
  {
  }

  lemma AskOne(w: World, prm: Params, b: nat, id: Id, first: seq<Action>, from: World) returns (actions: seq<Action>, w': World)
    requires b < |w.batches| && w.batches[b].stage.Resolving? && id !in w.batches[b].known && id !in w.batches[b].asked
    requires w.batches[b].asking == {} && Runs(from, prm, first, w)
    ensures Runs(from, prm, actions, w')
    ensures w' == w.(batches := w.batches[b := w.batches[b].(
      asked := w.batches[b].asked + {id},
      known := if id in prm.assign then w.batches[b].known[id := prm.assign[id]] else w.batches[b].known)])
  {
    var asking := AfterBatch(w, prm, b, CallOrderFor(id));
    assert asking.batches[b].asking == {id};
    actions := RunsBatch(from, prm, first, w, b, CallOrderFor(id));
    actions := RunsBatch(from, prm, actions, asking, b, OrderReplyFor(id, id in prm.assign));
    w' := AfterBatch(asking, prm, b, OrderReplyFor(id, id in prm.assign));
    assert {id} - {id} == {};
  }

  lemma ResolveOne(w: World, prm: Params, b: nat, pod: string, ids: set<Id>, id: Id, first: seq<Action>, from: World)
    returns (actions: seq<Action>, w': World)
    requires b < |w.batches| && w.batches[b] == AfterResolving(pod, w.shared, prm, ids) && id !in ids
    requires Runs(from, prm, first, w)
    ensures Runs(from, prm, actions, w')
    ensures w' == w.(batches := w.batches[b := AfterResolving(pod, w.shared, prm, ids + {id})])
  {
    KnownOneMore(w.shared, prm, ids, id);
    if Read(w.shared.mappings, id, w.shared.now).Some? {
      actions := RunsBatch(from, prm, first, w, b, LearnCached(id));
      w' := AfterBatch(w, prm, b, LearnCached(id));
    } else {
      actions, w' := AskOne(w, prm, b, id, first, from);
      assert id !in prm.assign ==> KnownOf(w.shared, prm, ids) - {id} == KnownOf(w.shared, prm, ids);
    }
  }

  lemma {:induction false} ResolveAll(w: World, prm: Params, b: nat, pod: string, ids: seq<Id>)
    returns (actions: seq<Action>, w': World)
    requires b < |w.batches| && w.batches[b] == Batch(pod, Resolving, map[], {}, {}, map[]) && P.NoDuplicates(ids)
    ensures Runs(w, prm, actions, w')
    ensures w' == w.(batches := w.batches[b := AfterResolving(pod, w.shared, prm, P.ToSet(ids))])
    decreases |ids|
  {
    if ids == [] {
      actions, w' := [], w;
      assert AfterResolving(pod, w.shared, prm, P.ToSet(ids)) == w.batches[b];
    } else {
      var n := |ids| - 1;
      var first, mid := ResolveAll(w, prm, b, pod, ids[..n]);
      assert ids == ids[..n] + [ids[n]];
      P.ToSetAppend(ids[..n], ids[n]);
      actions, w' := ResolveOne(mid, prm, b, pod, P.ToSet(ids[..n]), ids[n], first, w);
    }
  }

  /** Cached mappings once the orders in `ids` have been cached. */
  function Cached(s: Shared, prm: Params, ids: set<Id>, cfg: P.Config): map<Id, Item<Id>> {
    P.MappingsAfter(AsStore(s), P.External(prm.assign, map[]), cfg, ids, s.now)
  }

  lemma CachedOneMore(s: Shared, prm: Params, ids: set<Id>, id: Id, cfg: P.Config)
    requires cfg.mappingTtl == prm.mappingTtl
    ensures Cached(s, prm, ids + {id}, cfg) ==
      if Read(s.mappings, id, s.now).None? && id in prm.assign
      then Cached(s, prm, ids, cfg)[id := Item(prm.assign[id], Expiry(s.now, prm.mappingTtl))]
      else Cached(s, prm, ids, cfg)
  {
  }

  lemma {:induction false} CacheAll(w: World, prm: Params, b: nat, pod: string, all: set<Id>, ids: seq<Id>, cfg: P.Config)
    returns (actions: seq<Action>, w': World)
    requires b < |w.batches| && w.batches[b] == AfterResolving(pod, w.shared, prm, all)
    requires P.ToSet(ids) <= all && cfg.mappingTtl == prm.mappingTtl
    ensures Runs(w, prm, actions, w')
    ensures w' == w.(shared := w.shared.(mappings := Cached(w.shared, prm, P.ToSet(ids), cfg)))
    decreases |ids|
  {
    if ids == [] {
      actions, w' := [], w;
      assert Cached(w.shared, prm, {}, cfg) == w.shared.mappings;
    } else {
      var n := |ids| - 1;
      var id, before := ids[n], P.ToSet(ids[..n]);
      assert ids == ids[..n] + [id];
      P.ToSetAppend(ids[..n], id);
      assert id in P.ToSet(ids);
      var first, mid := CacheAll(w, prm, b, pod, all, ids[..n], cfg);
      CachedOneMore(w.shared, prm, before, id, cfg);
      if id in AskedOf(w.shared, all) && id in prm.assign {
        actions := RunsBatch(w, prm, first, mid, b, CacheKnown(id));
        w' := AfterBatch(mid, prm, b, CacheKnown(id));
      } else {
        actions, w' := first, mid;
      }
    }
  }

  function AnswersOf(positions: map<Id, Coordinates>, couriers: set<Id>): map<Id, Coordinates> {
    map c | c in couriers && c in positions :: positions[c]
  }

  lemma {:induction false} PollAll(w: World, prm: Params, positions: map<Id, Coordinates>, b: nat, couriers: seq<Id>)
    returns (actions: seq<Action>, w': World)
    requires b < |w.batches| && w.batches[b].stage.Polling? && w.batches[b].answers == map[]
    requires P.ToSet(couriers) <= w.batches[b].known.Values
    ensures Runs(w, prm, actions, w')
    ensures w' == w.(batches := w.batches[b := w.batches[b].(answers := AnswersOf(positions, P.ToSet(couriers)))],
                     shared := w.shared.(answered := w'.shared.answered))
    decreases |couriers|
  {
    if couriers == [] {
      actions, w' := [], w;
      assert AnswersOf(positions, P.ToSet(couriers)) == map[];
    } else {
      var n := |couriers| - 1;
      var c := couriers[n];
      assert couriers == couriers[..n] + [c];
      P.ToSetAppend(couriers[..n], c);
      assert c in P.ToSet(couriers);
      var first, mid := PollAll(w, prm, positions, b, couriers[..n]);
      if c in positions {
        actions := RunsBatch(w, prm, first, mid, b, Poll(c, positions[c]));
        w' := AfterBatch(mid, prm, b, Poll(c, positions[c]));
        assert AnswersOf(positions, P.ToSet(couriers)) == AnswersOf(positions, P.ToSet(couriers[..n]))[c := positions[c]];
      } else {
        actions, w' := first, mid;
        assert AnswersOf(positions, P.ToSet(couriers)) == AnswersOf(positions, P.ToSet(couriers[..n]));
      }
    }
  }

  /** The locations once the answered orders in `ids` have been written. */
  function Written(
    locations: map<Id, CourierLocation>, known: map<Id, Id>, positions: map<Id, Coordinates>, ids: set<Id>, now: Time)
    : map<Id, CourierLocation>
  {
    var answered := set id | id in ids && id in known && known[id] in positions;
    map id | id in locations.Keys + answered ::
      if id in answered then CourierLocation(id, known[id], positions[known[id]], now) else locations[id]
  }

  lemma WrittenOneMore(
    locations: map<Id, CourierLocation>, known: map<Id, Id>, positions: map<Id, Coordinates>, ids: set<Id>, id: Id, now: Time)
    ensures Written(locations, known, positions, ids + {id}, now) ==
      if id in known && known[id] in positions
      then Written(locations, known, positions, ids, now)[id := CourierLocation(id, known[id], positions[known[id]], now)]
      else Written(locations, known, positions, ids, now)
  {
  }

  lemma {:induction false} WriteAll(w: World, prm: Params, positions: map<Id, Coordinates>, b: nat, ids: seq<Id>)
    returns (actions: seq<Action>, w': World)
    requires b < |w.batches| && w.batches[b].stage.Writing?
    requires w.batches[b].answers == AnswersOf(positions, w.batches[b].known.Values)
    ensures Runs(w, prm, actions, w')
    ensures w' == w.(shared := w.shared.(locations :=
      Written(w.shared.locations, w.batches[b].known, positions, P.ToSet(ids), w.shared.now)))
    decreases |ids|
  {
    var known := w.batches[b].known;
    if ids == [] {
      actions, w' := [], w;
      assert Written(w.shared.locations, known, positions, {}, w.shared.now) == w.shared.locations;
    } else {
      var n := |ids| - 1;
      var id, before := ids[n], P.ToSet(ids[..n]);
      assert ids == ids[..n] + [id];
      P.ToSetAppend(ids[..n], id);
      var first, mid := WriteAll(w, prm, positions, b, ids[..n]);
      WrittenOneMore(w.shared.locations, known, positions, before, id, w.shared.now);
      if id in known && known[id] in positions {
        actions := RunsBatch(w, prm, first, mid, b, Write(id, w.shared.now));
        w' := AfterBatch(mid, prm, b, Write(id, w.shared.now));
      } else {
        actions, w' := first, mid;
      }
    }
  }

  lemma WrittenIsSyncSet(s: Shared, prm: Params, positions: map<Id, Coordinates>, cfg: P.Config, ids: set<Id>)
    ensures Written(s.locations, KnownOf(s, prm, ids), positions, ids, s.now)
      == Values(P.LocationsAfter(AsStore(s), P.External(prm.assign, positions), cfg, ids, s.now))
    ensures Cached(s, prm, ids, cfg) == P.MappingsAfter(AsStore(s), P.External(prm.assign, positions), cfg, ids, s.now)
  {
    var ext, bare := P.External(prm.assign, positions), P.External(prm.assign, map[]);
    assert forall id :: P.Resolve(AsStore(s), ext, id, s.now) == P.Resolve(AsStore(s), bare, id, s.now);
    assert P.Unmapped(AsStore(s), ext, ids, s.now) == P.Unmapped(AsStore(s), bare, ids, s.now);
  }

  /**
   A cycle that runs by itself over these orders, with cache accesses that succeed, does to
   mappings and locations exactly what the sequential cycle does.
   */
  lemma {:induction false} AloneIsCycle(
    w: World, prm: Params, positions: map<Id, Coordinates>, pod: string, ids: seq<Id>, couriers: seq<Id>, cfg: P.Config)
    returns (actions: seq<Action>, w': World)
    requires P.NoDuplicates(ids) && cfg.mappingTtl == prm.mappingTtl
    requires P.ToSet(couriers) == KnownOf(w.shared, prm, P.ToSet(ids)).Values
    ensures Runs(w, prm, actions, w')
    ensures var after := P.SyncSet(AsStore(w.shared), P.External(prm.assign, positions), cfg, P.ToSet(ids), w.shared.now);
      w'.shared.mappings == after.courierMaps && w'.shared.locations == Values(after.locations)
    ensures w'.executions == w.executions && w'.group == w.group
  {
    var b, all := |w.batches|, P.ToSet(ids);
    var begun := Apply(w, prm, BeginCycle(pod));
    RunsOne(w, prm, BeginCycle(pod), [], begun);
    var resolving, w1 := ResolveAll(begun, prm, b, pod, ids);
    RunsThen(w, prm, [BeginCycle(pod)], begun, resolving, w1);
    var caching, w2 := CacheAll(w1, prm, b, pod, all, ids, cfg);
    RunsThen(w, prm, [BeginCycle(pod)] + resolving, w1, caching, w2);
    actions := RunsBatch(w, prm, [BeginCycle(pod)] + resolving + caching, w2, b, StartPolling);
    var w3 := AfterBatch(w2, prm, b, StartPolling);
    var polling, w4 := PollAll(w3, prm, positions, b, couriers);
    RunsThen(w, prm, actions, w3, polling, w4);
    actions := RunsBatch(w, prm, actions + polling, w4, b, StartWriting);
    var w5 := AfterBatch(w4, prm, b, StartWriting);
    var writing, w6 := WriteAll(w5, prm, positions, b, ids);
    RunsThen(w, prm, actions, w5, writing, w6);
    actions, w' := actions + writing, w6;
    WrittenIsSyncSet(w.shared, prm, positions, cfg, all);
  }

  /**
   What the writing steps of a batch leave in any interleaving: the order's location with its
   assigned courier and that courier's answer, and the assigned mapping for a whole TTL.
   */
  lemma BatchWrites(prm: Params, actions: seq<Action>, w: World, b: nat, step: BatchStep)
    requires Runs(START, prm, actions, w) && Enabled(w, prm, RunBatch(b, step))
    ensures var s, t := Apply(w, prm, RunBatch(b, step)).shared, w.batches[b];
      && (step.Write? ==>
            && step.id in prm.assign && prm.assign[step.id] in t.answers
            && (prm.assign[step.id], t.answers[prm.assign[step.id]]) in w.shared.answered
            && s.locations == w.shared.locations[step.id :=
                 CourierLocation(step.id, prm.assign[step.id], t.answers[prm.assign[step.id]], step.at)])
      && (step.CacheKnown? ==>
            && step.id in prm.assign
            && s.mappings == w.shared.mappings[step.id := Item(prm.assign[step.id], Expiry(s.now, prm.mappingTtl))])
      && (!step.Write? ==> s.locations == w.shared.locations)
      && (!step.CacheKnown? ==> s.mappings == w.shared.mappings)
  {
    RunKeepsProvenance(START, prm, actions, w);
    assert GoodBatch(w.shared, prm, w.batches[b]);
  }
}
