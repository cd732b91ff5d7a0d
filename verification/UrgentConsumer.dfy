/**
 The urgent queue and its consumer: a bounded channel filled without blocking, a consumer that
 skips ids already in flight and then waits for a slot, one goroutine per accepted id, and Stop.
 Every interleaving is considered; each mutex section and channel operation is one step.
 */
module UrgentConsumer {
  import opened Domain

  datatype Consumer =
    | Selecting
    | Taken(id: Id)       // received, not yet checked against inFlight
    | NeedsSlot(id: Id)   // entered into inFlight, waiting for the semaphore
    | HasSlot(id: Id)     // about to start the goroutine
    | Exited

  /** A goroutine runs its sync, leaves inFlight, gives back its slot, and leaves the wait group. */
  datatype Phase = Ready | Syncing | Synced | Cleared | Freed | Done

  datatype Task = Task(id: Id, phase: Phase)

  /** How often each id occurred. */
  type Tally = map<Id, nat>

  function Count(t: Tally, id: Id): nat {
    if id in t then t[id] else 0
  }

  function Add(t: Tally, id: Id): Tally {
    t[id := Count(t, id) + 1]
  }

  /**
   What happened to the triggers so far; an id abandoned by the consumer is its last. `accepted`
   are those that found room in the queue and `taken` those the consumer received, in order.
   */
  datatype Log = Log(
    triggered: Tally, dropped: Tally, skipped: Tally, finished: Tally, abandoned: Option<Id>,
    accepted: seq<Id>, taken: seq<Id>)

  /** stopChan closed, ctx done, Stop returned. */
  datatype Flags = Flags(stopping: bool, cancelled: bool, stopReturned: bool)

  /** `slots` is the content of the semaphore, each token labelled with the task it was taken for. */
  datatype Node = Node(
    queue: seq<Id>,
    consumer: Consumer,
    inFlight: set<Id>,
    tasks: seq<Task>,
    slots: set<int>,
    flags: Flags,
    log: Log
  )

  datatype ConsumerStep = Take | Check | GetSlot | Spawn | Abandon | Exit

  datatype StopStep = CloseStop | Cancel | ReturnFromStop

  datatype Action =
    | Trigger(id: Id)
    | Consume(step: ConsumerStep)
    | Advance(i: nat)
    | Shut(stop: StopStep)

  const START := Node([], Selecting, {}, [], {}, Flags(false, false, false), Log(map[], map[], map[], map[], None, [], []))

  /** The wait group is empty: the consumer has left and every task is done. */
  predicate WaitGroupEmpty(n: Node) {
    n.consumer.Exited? && forall i :: 0 <= i < |n.tasks| ==> n.tasks[i].phase.Done?
  }

  predicate CanConsume(n: Node, limit: nat, step: ConsumerStep) {
    match step
    case Take => n.consumer.Selecting? && n.queue != []
    case Check => n.consumer.Taken?
    case GetSlot => n.consumer.NeedsSlot? && |n.slots| < limit
    case Spawn => n.consumer.HasSlot?
    case Abandon => n.consumer.NeedsSlot? && (n.flags.stopping || n.flags.cancelled)
    case Exit => n.consumer.Selecting? && (n.flags.stopping || n.flags.cancelled)
  }

  predicate Enabled(n: Node, limit: nat, a: Action) {
    match a
    case Trigger(_) => true
    case Consume(step) => CanConsume(n, limit, step)
    case Advance(i) => i < |n.tasks| && !n.tasks[i].phase.Done?
    case Shut(CloseStop) => !n.flags.stopping
    case Shut(Cancel) => !n.flags.cancelled
    case Shut(ReturnFromStop) => n.flags.stopping && !n.flags.stopReturned && WaitGroupEmpty(n)
  }

  /** TriggerUrgentSync: a full queue drops the id. */
  function Push(n: Node, capacity: nat, id: Id): Node {
    var log := n.log.(triggered := Add(n.log.triggered, id));
    if |n.queue| < capacity then n.(queue := n.queue + [id], log := log.(accepted := log.accepted + [id]))
    else n.(log := log.(dropped := Add(log.dropped, id)))
  }

  function AfterConsume(n: Node, limit: nat, step: ConsumerStep): Node
    requires CanConsume(n, limit, step)
  {
    match step
    case Take =>
      n.(queue := n.queue[1..], consumer := Taken(n.queue[0]), log := n.log.(taken := n.log.taken + [n.queue[0]]))
    case Check =>
      var id := n.consumer.id;
      if id in n.inFlight then n.(consumer := Selecting, log := n.log.(skipped := Add(n.log.skipped, id)))
      else n.(consumer := NeedsSlot(id), inFlight := n.inFlight + {id})
    case GetSlot => n.(consumer := HasSlot(n.consumer.id), slots := n.slots + {|n.tasks|})
    case Spawn => n.(consumer := Selecting, tasks := n.tasks + [Task(n.consumer.id, Ready)])
    case Abandon => n.(consumer := Exited, log := n.log.(abandoned := Some(n.consumer.id)))
    case Exit => n.(consumer := Exited)
  }

  function Later(phase: Phase): Phase {
    match phase
    case Ready => Syncing
    case Syncing => Synced
    case Synced => Cleared
    case Cleared => Freed
    case Freed => Done
    case Done => Done
  }

  /** Ending the sync counts it as finished; then inFlight, the slot and the wait group are left, in that order. */
  function AfterAdvance(n: Node, i: nat): Node
    requires i < |n.tasks|
  {
    var t := n.tasks[i];
    n.(tasks := n.tasks[i := Task(t.id, Later(t.phase))],
       inFlight := if t.phase.Synced? then n.inFlight - {t.id} else n.inFlight,
       slots := if t.phase.Cleared? then n.slots - {i} else n.slots,
       log := if t.phase.Syncing? then n.log.(finished := Add(n.log.finished, t.id)) else n.log)
  }

  function AfterShut(f: Flags, s: StopStep): Flags {
    match s
    case CloseStop => f.(stopping := true)
    case Cancel => f.(cancelled := true)
    case ReturnFromStop => f.(stopReturned := true)
  }

  function Apply(n: Node, capacity: nat, limit: nat, a: Action): Node
    requires Enabled(n, limit, a)
  {
    match a
    case Trigger(id) => Push(n, capacity, id)
    case Consume(step) => AfterConsume(n, limit, step)
    case Advance(i) => AfterAdvance(n, i)
    case Shut(s) => n.(flags := AfterShut(n.flags, s))
  }

  /** The task still has its entry in inFlight. */
  predicate Entered(t: Task) {
    t.phase.Ready? || t.phase.Syncing? || t.phase.Synced?
  }

  predicate Slotted(t: Task) {
    Entered(t) || t.phase.Cleared?
  }

  function Share(t: Task, id: Id): nat {
    if (t.phase.Ready? || t.phase.Syncing?) && t.id == id then 1 else 0
  }

  /** Syncs of `id` that have been started and have not ended. */
  function Running(tasks: seq<Task>, id: Id): nat {
    if tasks == [] then 0 else Running(tasks[..|tasks| - 1], id) + Share(tasks[|tasks| - 1], id)
  }

  function Queued(queue: seq<Id>, id: Id): nat {
    if queue == [] then 0 else (if queue[0] == id then 1 else 0) + Queued(queue[1..], id)
  }

  /** Whether the consumer has `id` in hand. */
  function InHand(c: Consumer, id: Id): nat {
    if (c.Taken? || c.NeedsSlot? || c.HasSlot?) && c.id == id then 1 else 0
  }

  function Abandoned(log: Log, id: Id): nat {
    if log.abandoned == Some(id) then 1 else 0
  }

  /** The id the consumer has entered into inFlight but not handed to a task. */
  predicate Pending(n: Node, id: Id) {
    ((n.consumer.NeedsSlot? || n.consumer.HasSlot?) && n.consumer.id == id) || n.log.abandoned == Some(id)
  }

  predicate EnteredAt(n: Node, i: int, id: Id) {
    0 <= i < |n.tasks| && Entered(n.tasks[i]) && n.tasks[i].id == id
  }

  ghost predicate SlotInv(n: Node, limit: nat) {
    && (forall i: int :: i in n.slots <==>
          (0 <= i < |n.tasks| && Slotted(n.tasks[i])) || (n.consumer.HasSlot? && i == |n.tasks|))
    && |n.slots| <= limit
  }

  ghost predicate FlightInv(n: Node) {
    && (forall id: Id :: id in n.inFlight ==> Pending(n, id) || exists i :: EnteredAt(n, i, id))
    && (forall id: Id :: Pending(n, id) ==> id in n.inFlight)
    && (forall i: int, id: Id :: EnteredAt(n, i, id) ==> id in n.inFlight && !Pending(n, id))
    && (forall i: int, j: int, id: Id :: EnteredAt(n, i, id) && EnteredAt(n, j, id) ==> i == j)
    && (n.log.abandoned.Some? ==> n.consumer.Exited?)
  }

  /** How often `id` occurs among all the places a trigger can be in. */
  function Accounted(n: Node, id: Id): nat {
    Count(n.log.dropped, id) + Queued(n.queue, id) + InHand(n.consumer, id) + Count(n.log.skipped, id)
    + Running(n.tasks, id) + Count(n.log.finished, id) + Abandoned(n.log, id)
  }

  /** Every trigger is accounted for exactly once. */
  ghost predicate Conserved(n: Node) {
    forall id: Id :: Count(n.log.triggered, id) == Accounted(n, id)
  }

  ghost predicate Inv(n: Node, limit: nat) {
    SlotInv(n, limit) && FlightInv(n) && Conserved(n) && (n.flags.stopReturned ==> WaitGroupEmpty(n))
  }

  lemma SlotsKeptByTask(n: Node, limit: nat, i: nat)
    requires SlotInv(n, limit) && i < |n.tasks|
    ensures SlotInv(AfterAdvance(n, i), limit)
  {
  }

  /** A move that keeps the entries of all tasks keeps the bookkeeping. */
  lemma FlightKeptIfSameEntries(n: Node, n': Node)
    requires FlightInv(n) && n'.inFlight == n.inFlight && n'.consumer == n.consumer && n'.log.abandoned == n.log.abandoned
    requires forall i: int, id: Id :: EnteredAt(n', i, id) <==> EnteredAt(n, i, id)
    ensures FlightInv(n')
  {
  }

  lemma FlightKeptByTask(n: Node, i: nat)
    requires FlightInv(n) && i < |n.tasks| && !n.tasks[i].phase.Done?
    ensures FlightInv(AfterAdvance(n, i))
  {
    var n' := AfterAdvance(n, i);
    var gone := n.tasks[i].id;
    if n.tasks[i].phase.Synced? {
      assert EnteredAt(n, i, gone);
      assert forall k: int, id: Id :: EnteredAt(n', k, id) <==> EnteredAt(n, k, id) && k != i;
      assert forall id: Id :: Pending(n', id) <==> Pending(n, id);
      forall id: Id | id in n'.inFlight && !Pending(n', id)
        ensures exists k :: EnteredAt(n', k, id)
      {
        var k :| EnteredAt(n, k, id);
        assert EnteredAt(n', k, id);
      }
    } else {
      FlightKeptIfSameEntries(n, n');
    }
  }

  lemma FlightKeptBySpawn(n: Node, limit: nat)
    requires FlightInv(n) && CanConsume(n, limit, Spawn)
    ensures FlightInv(AfterConsume(n, limit, Spawn))
  {
    var n' := AfterConsume(n, limit, Spawn);
    var last := |n.tasks|;
    var started := n.consumer.id;
    assert Pending(n, started);
    assert forall k: int, id: Id :: EnteredAt(n', k, id) <==> EnteredAt(n, k, id) || (k == last && id == started);
    assert forall id: Id :: Pending(n, id) <==> id == started;
    forall id: Id | id in n'.inFlight && !Pending(n', id)
      ensures exists k :: EnteredAt(n', k, id)
    {
      if id == started {
        assert EnteredAt(n', last, id);
      } else {
        var k :| EnteredAt(n, k, id);
        assert EnteredAt(n', k, id);
      }
    }
  }

  lemma FlightKeptByConsumer(n: Node, limit: nat, step: ConsumerStep)
    requires FlightInv(n) && CanConsume(n, limit, step) && !step.Spawn?
    ensures FlightInv(AfterConsume(n, limit, step))
  {
    var n' := AfterConsume(n, limit, step);
    assert forall k: int, id: Id :: EnteredAt(n', k, id) <==> EnteredAt(n, k, id);
    if step.Check? && n.consumer.id !in n.inFlight {
      var id := n.consumer.id;
      assert forall other: Id :: Pending(n', other) <==> Pending(n, other) || other == id;
    } else {
      assert forall id: Id :: Pending(n', id) <==> Pending(n, id);
    }
    forall id: Id | id in n'.inFlight && !Pending(n', id)
      ensures exists k :: EnteredAt(n', k, id)
    {
      var k :| EnteredAt(n, k, id);
      assert EnteredAt(n', k, id);
    }
  }

  lemma {:induction false} RunningAfterMove(tasks: seq<Task>, i: nat, t: Task, id: Id)
    requires i < |tasks|
    ensures Running(tasks[i := t], id) + Share(tasks[i], id) == Running(tasks, id) + Share(t, id)
    decreases |tasks|
  {
    var n := |tasks| - 1;
    if i == n {
      assert tasks[i := t][..n] == tasks[..n];
    } else {
      RunningAfterMove(tasks[..n], i, t, id);
      assert tasks[i := t][..n] == tasks[..n][i := t];
    }
  }

  lemma ConservedByTask(n: Node, i: nat)
    requires Conserved(n) && i < |n.tasks| && !n.tasks[i].phase.Done?
    ensures Conserved(AfterAdvance(n, i))
  {
    var n' := AfterAdvance(n, i);
    forall id: Id
      ensures Count(n'.log.triggered, id) == Accounted(n', id)
    {
      RunningAfterMove(n.tasks, i, n'.tasks[i], id);
      assert Count(n.log.triggered, id) == Accounted(n, id);
    }
  }

  lemma {:induction false} QueueGrows(queue: seq<Id>, more: Id, id: Id)
    ensures Queued(queue + [more], id) == Queued(queue, id) + (if more == id then 1 else 0)
  {
    if queue == [] {
      assert queue + [more] == [more];
    } else {
      QueueGrows(queue[1..], more, id);
      assert (queue + [more])[1..] == queue[1..] + [more];
    }
  }

  lemma ConservedByPush(n: Node, capacity: nat, id: Id)
    requires Conserved(n)
    ensures Conserved(Push(n, capacity, id))
  {
    var n' := Push(n, capacity, id);
    forall other: Id
      ensures Count(n'.log.triggered, other) == Accounted(n', other)
    {
      QueueGrows(n.queue, id, other);
      assert Count(n.log.triggered, other) == Accounted(n, other);
    }
  }

  lemma ConservedByConsumer(n: Node, limit: nat, step: ConsumerStep)
    requires Conserved(n) && CanConsume(n, limit, step)
    requires n.log.abandoned.Some? ==> n.consumer.Exited?
    ensures Conserved(AfterConsume(n, limit, step))
  {
    var n' := AfterConsume(n, limit, step);
    if step.Spawn? {
      assert n'.tasks[..|n.tasks|] == n.tasks;
    }
    forall id: Id
      ensures Count(n'.log.triggered, id) == Accounted(n', id)
    {
      assert Count(n.log.triggered, id) == Accounted(n, id);
    }
  }

  lemma StepKeepsInv(n: Node, capacity: nat, limit: nat, a: Action)
    requires Inv(n, limit) && Enabled(n, limit, a)
    ensures Inv(Apply(n, capacity, limit, a), limit)
  {
    match a
    case Trigger(id) =>
      ConservedByPush(n, capacity, id);
      FlightKeptIfSameEntries(n, Push(n, capacity, id));
    case Consume(step) =>
      ConservedByConsumer(n, limit, step);
      if step.Spawn? {
        FlightKeptBySpawn(n, limit);
      } else {
        FlightKeptByConsumer(n, limit, step);
      }
    case Advance(i) =>
      SlotsKeptByTask(n, limit, i);
      FlightKeptByTask(n, i);
      ConservedByTask(n, i);
    case Shut(s) =>
      var n' := Apply(n, capacity, limit, a);
      FlightKeptIfSameEntries(n, n');
      assert forall id: Id :: Accounted(n', id) == Accounted(n, id);
  }

  predicate Runs(from: Node, capacity: nat, limit: nat, schedule: seq<Action>, to: Node)
    decreases |schedule|
  {
    if schedule == [] then from == to
    else
      && Enabled(from, limit, schedule[0])
      && Runs(Apply(from, capacity, limit, schedule[0]), capacity, limit, schedule[1..], to)
  }

  lemma {:induction false} RunKeepsInv(from: Node, capacity: nat, limit: nat, schedule: seq<Action>, to: Node)
    requires Inv(from, limit) && Runs(from, capacity, limit, schedule, to)
    ensures Inv(to, limit)
    decreases |schedule|
  {
    if schedule != [] {
      StepKeepsInv(from, capacity, limit, schedule[0]);
      RunKeepsInv(Apply(from, capacity, limit, schedule[0]), capacity, limit, schedule[1..], to);
    }
  }

  /**
   Which ids are skipped: checking an id in hand counts it as skipped if and only if an unfinished
   task of that same id still has its entry; otherwise the id goes on to wait for a slot. No other
   id's tally changes.
   */
  lemma CheckSkipsIff(capacity: nat, limit: nat, schedule: seq<Action>, n: Node)
    requires Runs(START, capacity, limit, schedule, n) && n.consumer.Taken?
    ensures var id, n' := n.consumer.id, Apply(n, capacity, limit, Consume(Check));
      && (n'.consumer == Selecting <==> exists i :: EnteredAt(n, i, id))
      && (n'.consumer == NeedsSlot(id) <==> !exists i :: EnteredAt(n, i, id))
      && (n'.inFlight == n.inFlight + {id})
      && (forall other: Id :: Count(n'.log.skipped, other) ==
            Count(n.log.skipped, other) + (if other == id && n'.consumer.Selecting? then 1 else 0))
  {
    RunKeepsInv(START, capacity, limit, schedule, n);
    assert forall i :: EnteredAt(n, i, n.consumer.id) ==> n.consumer.id in n.inFlight;
  }

  lemma {:induction false} RunKeepsConsuming(from: Node, capacity: nat, limit: nat, schedule: seq<Action>, to: Node)
    requires Runs(from, capacity, limit, schedule, to)
    requires from.consumer.Exited? ==> from.flags.stopping || from.flags.cancelled
    ensures to.consumer.Exited? ==> to.flags.stopping || to.flags.cancelled
    decreases |schedule|
  {
    if schedule != [] {
      RunKeepsConsuming(Apply(from, capacity, limit, schedule[0]), capacity, limit, schedule[1..], to);
    }
  }

  /** The consumer leaves, and gives up an id, only once it is told to stop. */
  lemma LeavesOnlyWhenStopped(capacity: nat, limit: nat, schedule: seq<Action>, n: Node)
    requires Runs(START, capacity, limit, schedule, n) && (n.consumer.Exited? || n.log.abandoned.Some?)
    ensures n.flags.stopping || n.flags.cancelled
  {
    RunKeepsInv(START, capacity, limit, schedule, n);
    RunKeepsConsuming(START, capacity, limit, schedule, n);
  }

  /** The queue is first in, first out, and never longer than its capacity. */
  ghost predicate QueueInv(n: Node, capacity: nat) {
    n.log.accepted == n.log.taken + n.queue && |n.queue| <= capacity
  }

  lemma StepKeepsQueue(n: Node, capacity: nat, limit: nat, a: Action)
    requires QueueInv(n, capacity) && Enabled(n, limit, a)
    ensures QueueInv(Apply(n, capacity, limit, a), capacity)
  {
  }

  lemma {:induction false} RunKeepsQueue(from: Node, capacity: nat, limit: nat, schedule: seq<Action>, to: Node)
    requires QueueInv(from, capacity) && Runs(from, capacity, limit, schedule, to)
    ensures QueueInv(to, capacity)
    decreases |schedule|
  {
    if schedule != [] {
      StepKeepsQueue(from, capacity, limit, schedule[0]);
      RunKeepsQueue(Apply(from, capacity, limit, schedule[0]), capacity, limit, schedule[1..], to);
    }
  }

  /**
   In every interleaving the consumer receives the accepted triggers in the order of their
   acceptance, and a trigger is dropped if and only if the queue then holds as many as it can.
   */
  lemma TriggersAreTakenInOrder(capacity: nat, limit: nat, schedule: seq<Action>, n: Node, id: Id)
    requires Runs(START, capacity, limit, schedule, n)
    ensures n.log.taken + n.queue == n.log.accepted && |n.queue| <= capacity
    ensures var n' := Apply(n, capacity, limit, Trigger(id));
      if |n.queue| == capacity then
        n'.queue == n.queue && n'.log.accepted == n.log.accepted && Count(n'.log.dropped, id) == Count(n.log.dropped, id) + 1
      else
        n'.queue == n.queue + [id] && n'.log.accepted == n.log.accepted + [id] && n'.log.dropped == n.log.dropped
  {
    RunKeepsQueue(START, capacity, limit, schedule, n);
  }

  function SyncingTasks(n: Node): set<int> {
    set i | 0 <= i < |n.tasks| && n.tasks[i].phase.Syncing?
  }

  /** In every interleaving the running syncs are at most `limit`, and of distinct orders. */
  lemma SyncsBoundedAndDistinct(capacity: nat, limit: nat, schedule: seq<Action>, n: Node)
    requires Runs(START, capacity, limit, schedule, n)
    ensures |SyncingTasks(n)| <= limit
    ensures forall i, j :: i in SyncingTasks(n) && j in SyncingTasks(n) && i != j ==> n.tasks[i].id != n.tasks[j].id
  {
    RunKeepsInv(START, capacity, limit, schedule, n);
    SubsetSize(SyncingTasks(n), n.slots);
    assert forall i :: i in SyncingTasks(n) ==> EnteredAt(n, i, n.tasks[i].id);
  }

  /**
   Every triggered id, counted with repeats, is exactly one of: dropped because the queue was
   full, queued, in the consumer's hand, skipped because in flight, running, finished, or
   abandoned when stopping.
   */
  lemma TriggersConserved(capacity: nat, limit: nat, schedule: seq<Action>, n: Node, id: Id)
    requires Runs(START, capacity, limit, schedule, n)
    ensures Count(n.log.triggered, id)
      == Count(n.log.dropped, id) + Queued(n.queue, id) + InHand(n.consumer, id) + Count(n.log.skipped, id)
         + Running(n.tasks, id) + Count(n.log.finished, id) + Abandoned(n.log, id)
  {
    RunKeepsInv(START, capacity, limit, schedule, n);
  }

  lemma {:induction false} NoneRunning(tasks: seq<Task>, id: Id)
    requires forall i :: 0 <= i < |tasks| ==> tasks[i].phase.Done?
    ensures Running(tasks, id) == 0
  {
    if tasks != [] {
      NoneRunning(tasks[..|tasks| - 1], id);
    }
  }

  /**
   When Stop has returned, no task and no consumer is left, all slots are free, inFlight holds
   nothing but the id abandoned by the consumer, if any, and every trigger is settled.
   */
  lemma AfterStop(capacity: nat, limit: nat, schedule: seq<Action>, n: Node)
    requires Runs(START, capacity, limit, schedule, n) && n.flags.stopReturned
    ensures WaitGroupEmpty(n) && n.slots == {}
    ensures n.inFlight == if n.log.abandoned.Some? then {n.log.abandoned.value} else {}
    ensures |n.inFlight| <= 1
    ensures forall id: Id ::
      Count(n.log.triggered, id) == Count(n.log.dropped, id) + Queued(n.queue, id) + Count(n.log.skipped, id)
                                    + Count(n.log.finished, id) + Abandoned(n.log, id)
  {
    RunKeepsInv(START, capacity, limit, schedule, n);
    forall i: int
      ensures i !in n.slots
    {
      var held := i in n.slots;
    }
    forall id: Id
      ensures id in n.inFlight <==> n.log.abandoned == Some(id)
      ensures Running(n.tasks, id) == 0
    {
      assert Pending(n, id) <==> n.log.abandoned == Some(id);
      assert forall i: int :: !EnteredAt(n, i, id);
      NoneRunning(n.tasks, id);
    }
  }

  /** Once stopping, something can always move until Stop returns, provided running syncs end. */
  lemma StopProgresses(n: Node, limit: nat) returns (a: Action)
    requires n.flags.stopping && !n.flags.stopReturned
    ensures Enabled(n, limit, a) && !a.Trigger? && a != Shut(Cancel) && a != Consume(Take)
  {
    if i :| 0 <= i < |n.tasks| && !n.tasks[i].phase.Done? {
      a := Advance(i);
    } else {
      match n.consumer
      case Selecting => a := Consume(Exit);
      case Taken(_) => a := Consume(Check);
      case NeedsSlot(_) => a := Consume(Abandon);
      case HasSlot(_) => a := Consume(Spawn);
      case Exited => a := Shut(ReturnFromStop);
    }
  }

  /** Stopped or cancelled alike, consumer and tasks can always move towards their end without taking another id. */
  lemma CancelProgresses(n: Node, limit: nat) returns (a: Action)
    requires (n.flags.stopping || n.flags.cancelled) && !WaitGroupEmpty(n)
    ensures Enabled(n, limit, a) && (a.Advance? || (a.Consume? && !a.step.Take?))
  {
    if i :| 0 <= i < |n.tasks| && !n.tasks[i].phase.Done? {
      a := Advance(i);
    } else {
      match n.consumer
      case Selecting => a := Consume(Exit);
      case Taken(_) => a := Consume(Check);
      case NeedsSlot(_) => a := Consume(Abandon);
      case HasSlot(_) => a := Consume(Spawn);
    }
  }

  // ---------- Stop ends ----------

  function TaskRank(t: Task): nat {
    match t.phase
    case Ready => 5
    case Syncing => 4
    case Synced => 3
    case Cleared => 2
    case Freed => 1
    case Done => 0
  }

  function TasksRank(tasks: seq<Task>): nat {
    if tasks == [] then 0 else TasksRank(tasks[..|tasks| - 1]) + TaskRank(tasks[|tasks| - 1])
  }

  function ConsumerRank(c: Consumer): nat {
    match c
    case Taken(_) => 9
    case NeedsSlot(_) => 8
    case HasSlot(_) => 7
    case Selecting => 1
    case Exited => 0
  }

  function FlagsRank(f: Flags): nat {
    (if f.stopping then 0 else 1) + (if f.cancelled then 0 else 1) + (if f.stopReturned then 0 else 1)
  }

  /** What is queued, in hand and running, weighted by the steps it still needs. */
  function Measure(n: Node): nat {
    9 * |n.queue| + ConsumerRank(n.consumer) + TasksRank(n.tasks) + FlagsRank(n.flags)
  }

  lemma {:induction false} RankAfterMove(tasks: seq<Task>, i: nat, t: Task)
    requires i < |tasks|
    ensures TasksRank(tasks[i := t]) + TaskRank(tasks[i]) == TasksRank(tasks) + TaskRank(t)
    decreases |tasks|
  {
    var n := |tasks| - 1;
    if i == n {
      assert tasks[i := t][..n] == tasks[..n];
    } else {
      RankAfterMove(tasks[..n], i, t);
      assert tasks[i := t][..n] == tasks[..n][i := t];
    }
  }

  lemma ConsumingLowersMeasure(n: Node, limit: nat, step: ConsumerStep)
    requires CanConsume(n, limit, step)
    ensures Measure(AfterConsume(n, limit, step)) < Measure(n)
  {
  }

  /** Only a trigger adds work; every other step lowers the measure, by one at least. */
  lemma StepsTerminate(n: Node, capacity: nat, limit: nat, a: Action)
    requires Enabled(n, limit, a) && !a.Trigger?
    ensures Measure(Apply(n, capacity, limit, a)) < Measure(n)
  {
    match a
    case Consume(step) => ConsumingLowersMeasure(n, limit, step);
    case Advance(i) => RankAfterMove(n.tasks, i, AfterAdvance(n, i).tasks[i]);
    case _ =>
  }

  /** Without new triggers a run, and with it Stop, ends within so many steps. */
  lemma {:induction false} QuietRunIsFinite(from: Node, capacity: nat, limit: nat, schedule: seq<Action>, to: Node)
    requires Runs(from, capacity, limit, schedule, to) && forall a :: a in schedule ==> !a.Trigger?
    ensures |schedule| + Measure(to) <= Measure(from)
    decreases |schedule|
  {
    if schedule != [] {
      StepsTerminate(from, capacity, limit, schedule[0]);
      QuietRunIsFinite(Apply(from, capacity, limit, schedule[0]), capacity, limit, schedule[1..], to);
    }
  }

  // ---------- Queued ids make progress ----------

  /** The consumer runs and has an id in hand or queued. */
  predicate HasWork(n: Node) {
    !n.consumer.Exited? && (n.queue != [] || !n.consumer.Selecting?)
  }

  /** Some step other than giving up on an id: of a task, or of the consumer towards a task. */
  predicate CanMove(n: Node, limit: nat) {
    || (exists i :: 0 <= i < |n.tasks| && !n.tasks[i].phase.Done?)
    || CanConsume(n, limit, Take) || CanConsume(n, limit, Check) || CanConsume(n, limit, GetSlot) || CanConsume(n, limit, Spawn)
  }

  lemma WorkMoves(capacity: nat, limit: nat, schedule: seq<Action>, n: Node)
    requires Runs(START, capacity, limit, schedule, n) && limit >= 1 && HasWork(n)
    ensures CanMove(n, limit)
  {
    RunKeepsInv(START, capacity, limit, schedule, n);
    if n.consumer.NeedsSlot? && forall i :: 0 <= i < |n.tasks| ==> n.tasks[i].phase.Done? {
      forall i: int
        ensures i !in n.slots
      {
        var held := i in n.slots;
      }
      assert n.slots == {};
    }
  }

  /** Without slots the first id accepted blocks the consumer for good. */
  lemma StuckWithoutSlots(capacity: nat, id: Id) returns (schedule: seq<Action>, n: Node)
    requires capacity >= 1
    ensures schedule == [Trigger(id), Consume(Take), Consume(Check)] && Runs(START, capacity, 0, schedule, n)
    ensures HasWork(n) && !CanMove(n, 0)
  {
    var n1 := Apply(START, capacity, 0, Trigger(id));
    var n2 := Apply(n1, capacity, 0, Consume(Take));
    n := Apply(n2, capacity, 0, Consume(Check));
    schedule := [Trigger(id), Consume(Take), Consume(Check)];
    assert schedule[1..][1..] == [Consume(Check)];
    assert Runs(n2, capacity, 0, schedule[1..][1..], n);
  }

  ghost predicate NeverStuck(capacity: nat, limit: nat) {
    forall schedule: seq<Action>, n: Node :: Runs(START, capacity, limit, schedule, n) && HasWork(n) ==> CanMove(n, limit)
  }

  /** In every interleaving an id taken or queued can be moved on, if and only if there is at least one slot. */
  lemma NeverStuckIff(capacity: nat, limit: nat)
    requires capacity >= 1
    ensures NeverStuck(capacity, limit) <==> limit >= 1
  {
    if limit >= 1 {
      forall schedule: seq<Action>, n: Node | Runs(START, capacity, limit, schedule, n) && HasWork(n)
        ensures CanMove(n, limit)
      {
        WorkMoves(capacity, limit, schedule, n);
      }
    } else {
      var schedule, n := StuckWithoutSlots(capacity, 0);
      assert exists s: seq<Action>, m: Node :: Runs(START, capacity, 0, s, m) && HasWork(m) && !CanMove(m, 0);
    }
  }
}
