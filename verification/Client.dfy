/**
 The client's fan-out and fan-in: a dispatcher, a pool of workers, a collector and main, joined
 by two bounded channels, in every interleaving and with an interrupt at any moment.
 */
module Client {
  import opened Domain

  datatype Job = Job(seqNum: nat, orderId: Id)

  datatype Dispatcher = AtLoop | Sending(job: Job) | Pausing | Gone

  datatype Worker = Idle | Busy(job: Job) | Replying(job: Job) | Quit

  datatype Main = WaitingForWorkers | WaitingForCollector | Summary

  /** `requests` is 0 for an endless run. */
  datatype Setup = Setup(threads: nat, requests: nat, orders: seq<Id>)

  datatype Channel = Channel(items: seq<Job>, closed: bool)

  /** `count` is the dispatcher's reqCount, which its orderIndex always equals; `unsent` a job given up on an interrupt. */
  datatype System = System(
    dispatcher: Dispatcher,
    count: nat,
    unsent: Option<Job>,
    jobs: Channel,
    workers: seq<Worker>,
    results: Channel,
    recorded: seq<Job>,
    collecting: bool,
    main: Main,
    interrupted: bool
  )

  datatype DispatchStep = Next | Send | GiveUp | Resume

  datatype WorkStep = Take | Answer | Reply | Leave

  datatype Action =
    | Dispatch(d: DispatchStep)
    | Work(i: nat, w: WorkStep)
    | Collect | CollectorLeaves
    | CloseResults | Summarize
    | Interrupt

  function Capacity(cfg: Setup): nat {
    cfg.threads * 2
  }

  function Start(cfg: Setup): System {
    System(AtLoop, 0, None, Channel([], false), seq(cfg.threads, _ => Idle), Channel([], false), [], true,
           WaitingForWorkers, false)
  }

  /** Request k asks for the orders in turn. */
  function JobNumber(cfg: Setup, k: nat): Job
    requires k >= 1 && |cfg.orders| > 0
  {
    Job(k, cfg.orders[(k - 1) % |cfg.orders|])
  }

  predicate AllQuit(workers: seq<Worker>) {
    forall i :: 0 <= i < |workers| ==> workers[i].Quit?
  }

  predicate CanDispatch(s: System, cfg: Setup, d: DispatchStep) {
    match d
    case Next => s.dispatcher.AtLoop?
    case Send => s.dispatcher.Sending? && |s.jobs.items| < Capacity(cfg)
    case GiveUp => s.interrupted && (s.dispatcher.Sending? || s.dispatcher.Pausing?)
    case Resume => s.dispatcher.Pausing?
  }

  predicate CanWork(s: System, cfg: Setup, i: nat, w: WorkStep) {
    && i < |s.workers|
    && match w
       case Take => s.workers[i].Idle? && s.jobs.items != []
       case Answer => s.workers[i].Busy?
       case Reply => s.workers[i].Replying? && |s.results.items| < Capacity(cfg)
       case Leave => s.workers[i].Idle? && (s.interrupted || (s.jobs.items == [] && s.jobs.closed))
  }

  predicate Enabled(s: System, cfg: Setup, a: Action) {
    match a
    case Dispatch(d) => CanDispatch(s, cfg, d)
    case Work(i, w) => CanWork(s, cfg, i, w)
    case Collect => s.collecting && s.results.items != []
    case CollectorLeaves => s.collecting && s.results.items == [] && s.results.closed
    case CloseResults => s.main.WaitingForWorkers? && AllQuit(s.workers)
    case Summarize => s.main.WaitingForCollector? && !s.collecting
    case Interrupt => !s.interrupted
  }

  function AfterDispatch(s: System, cfg: Setup, d: DispatchStep): System
    requires CanDispatch(s, cfg, d) && |cfg.orders| > 0
  {
    match d
    case Next =>
      if s.interrupted || (cfg.requests > 0 && s.count >= cfg.requests)
      then s.(dispatcher := Gone, jobs := s.jobs.(closed := true))
      else s.(dispatcher := Sending(JobNumber(cfg, s.count + 1)), count := s.count + 1)
    case Send => s.(dispatcher := Pausing, jobs := s.jobs.(items := s.jobs.items + [s.dispatcher.job]))
    case GiveUp =>
      s.(dispatcher := Gone, jobs := s.jobs.(closed := true),
         unsent := if s.dispatcher.Sending? then Some(s.dispatcher.job) else s.unsent)
    case Resume => s.(dispatcher := AtLoop)
  }

  function AfterWork(s: System, cfg: Setup, i: nat, w: WorkStep): System
    requires CanWork(s, cfg, i, w)
  {
    match w
    case Take => s.(workers := s.workers[i := Busy(s.jobs.items[0])], jobs := s.jobs.(items := s.jobs.items[1..]))
    case Answer => s.(workers := s.workers[i := Replying(s.workers[i].job)])
    case Reply =>
      s.(workers := s.workers[i := Idle], results := s.results.(items := s.results.items + [s.workers[i].job]))
    case Leave => s.(workers := s.workers[i := Quit])
  }

  function Apply(s: System, cfg: Setup, a: Action): System
    requires Enabled(s, cfg, a) && |cfg.orders| > 0
  {
    match a
    case Dispatch(d) => AfterDispatch(s, cfg, d)
    case Work(i, w) => AfterWork(s, cfg, i, w)
    case Collect =>
      s.(recorded := s.recorded + [s.results.items[0]], results := s.results.(items := s.results.items[1..]))
    case CollectorLeaves => s.(collecting := false)
    case CloseResults => s.(main := WaitingForCollector, results := s.results.(closed := true))
    case Summarize => s.(main := Summary)
    case Interrupt => s.(interrupted := true)
  }

  // ---------- Where request number k is ----------

  function One(job: Job, k: nat): nat {
    if job.seqNum == k then 1 else 0
  }

  function CountJobs(jobs: seq<Job>, k: nat): nat {
    if jobs == [] then 0 else One(jobs[0], k) + CountJobs(jobs[1..], k)
  }

  function Held(w: Worker, k: nat): nat {
    if w.Busy? || w.Replying? then One(w.job, k) else 0
  }

  function CountHeld(workers: seq<Worker>, k: nat): nat {
    if workers == [] then 0 else CountHeld(workers[..|workers| - 1], k) + Held(workers[|workers| - 1], k)
  }

  function CountSending(s: System, k: nat): nat {
    (if s.dispatcher.Sending? then One(s.dispatcher.job, k) else 0)
    + (if s.unsent.Some? then One(s.unsent.value, k) else 0)
  }

  function Places(s: System, k: nat): nat {
    CountSending(s, k) + CountJobs(s.jobs.items, k) + CountHeld(s.workers, k)
    + CountJobs(s.results.items, k) + CountJobs(s.recorded, k)
  }

  /** Request numbers 1..count are each in exactly one place, the others nowhere. */
  ghost predicate Conserved(s: System) {
    forall k: nat :: Places(s, k) == if 1 <= k <= s.count then 1 else 0
  }

  ghost predicate Genuine(s: System, cfg: Setup)
    requires |cfg.orders| > 0
  {
    && (s.dispatcher.Sending? ==> IsJob(cfg, s.dispatcher.job))
    && (forall i :: 0 <= i < |s.jobs.items| ==> IsJob(cfg, s.jobs.items[i]))
    && (forall i :: 0 <= i < |s.workers| && (s.workers[i].Busy? || s.workers[i].Replying?) ==> IsJob(cfg, s.workers[i].job))
    && (forall i :: 0 <= i < |s.results.items| ==> IsJob(cfg, s.results.items[i]))
    && (forall i :: 0 <= i < |s.recorded| ==> IsJob(cfg, s.recorded[i]))
  }

  predicate IsJob(cfg: Setup, job: Job)
    requires |cfg.orders| > 0
  {
    job.seqNum >= 1 && job == JobNumber(cfg, job.seqNum)
  }

  /** Who has closed what, and who has left. */
  ghost predicate ShapeInv(s: System, cfg: Setup) {
    && |s.workers| == cfg.threads
    && (s.jobs.closed <==> s.dispatcher.Gone?)
    && (s.results.closed <==> !s.main.WaitingForWorkers?)
    && (!s.main.WaitingForWorkers? ==> AllQuit(s.workers))
    && (!s.collecting ==> s.results.closed && s.results.items == [])
    && (s.main.Summary? ==> !s.collecting)
    && (!s.interrupted ==> s.unsent.None?)
    && (s.dispatcher.Gone? && !s.interrupted ==> cfg.requests > 0 && s.count == cfg.requests)
    && (cfg.requests > 0 ==> s.count <= cfg.requests)
    && (!s.interrupted && (exists i :: 0 <= i < |s.workers| && s.workers[i].Quit?) ==> s.jobs.closed && s.jobs.items == [])
    && (s.unsent.Some? ==> s.dispatcher.Gone?)
  }

  ghost predicate Inv(s: System, cfg: Setup)
    requires |cfg.orders| > 0
  {
    ShapeInv(s, cfg) && Genuine(s, cfg) && Conserved(s)
  }

  lemma {:induction false} CountAppend(jobs: seq<Job>, job: Job, k: nat)
    ensures CountJobs(jobs + [job], k) == CountJobs(jobs, k) + One(job, k)
  {
    if jobs == [] {
      assert jobs + [job] == [job];
    } else {
      CountAppend(jobs[1..], job, k);
      assert (jobs + [job])[1..] == jobs[1..] + [job];
    }
  }

  lemma {:induction false} HeldUpdate(workers: seq<Worker>, i: nat, w: Worker, k: nat)
    requires i < |workers|
    ensures CountHeld(workers[i := w], k) + Held(workers[i], k) == CountHeld(workers, k) + Held(w, k)
    decreases |workers|
  {
    var n := |workers| - 1;
    if i == n {
      assert workers[i := w][..n] == workers[..n];
    } else {
      HeldUpdate(workers[..n], i, w, k);
      assert workers[i := w][..n] == workers[..n][i := w];
    }
  }

  lemma {:induction false} NothingHeld(workers: seq<Worker>, k: nat)
    requires forall i :: 0 <= i < |workers| ==> workers[i].Idle? || workers[i].Quit?
    ensures CountHeld(workers, k) == 0
  {
    if workers != [] {
      NothingHeld(workers[..|workers| - 1], k);
    }
  }

  lemma DispatchConserves(s: System, cfg: Setup, d: DispatchStep)
    requires Conserved(s) && |cfg.orders| > 0 && CanDispatch(s, cfg, d) && (s.dispatcher.Sending? ==> s.unsent.None?)
    ensures Conserved(AfterDispatch(s, cfg, d))
  {
    var s' := AfterDispatch(s, cfg, d);
    forall k: nat
      ensures Places(s', k) == if 1 <= k <= s'.count then 1 else 0
    {
      assert Places(s, k) == if 1 <= k <= s.count then 1 else 0;
      if d.Send? {
        CountAppend(s.jobs.items, s.dispatcher.job, k);
      }
    }
  }

  lemma WorkConserves(s: System, cfg: Setup, i: nat, w: WorkStep)
    requires Conserved(s) && CanWork(s, cfg, i, w)
    ensures Conserved(AfterWork(s, cfg, i, w))
  {
    var s' := AfterWork(s, cfg, i, w);
    forall k: nat
      ensures Places(s', k) == if 1 <= k <= s'.count then 1 else 0
    {
      assert Places(s, k) == if 1 <= k <= s.count then 1 else 0;
      HeldUpdate(s.workers, i, s'.workers[i], k);
      if w.Reply? {
        CountAppend(s.results.items, s.workers[i].job, k);
      }
    }
  }

  lemma RestConserves(s: System, cfg: Setup, a: Action)
    requires Conserved(s) && |cfg.orders| > 0 && Enabled(s, cfg, a) && !a.Dispatch? && !a.Work?
    ensures Conserved(Apply(s, cfg, a))
  {
    var s' := Apply(s, cfg, a);
    forall k: nat
      ensures Places(s', k) == if 1 <= k <= s'.count then 1 else 0
    {
      assert Places(s, k) == if 1 <= k <= s.count then 1 else 0;
      if a.Collect? {
        CountAppend(s.recorded, s.results.items[0], k);
      }
    }
  }

  lemma StepKeepsShape(s: System, cfg: Setup, a: Action)
    requires ShapeInv(s, cfg) && |cfg.orders| > 0 && Enabled(s, cfg, a)
    ensures ShapeInv(Apply(s, cfg, a), cfg)
  {
  }

  lemma DispatchKeepsGenuine(s: System, cfg: Setup, d: DispatchStep)
    requires |cfg.orders| > 0 && Genuine(s, cfg) && CanDispatch(s, cfg, d)
    ensures Genuine(AfterDispatch(s, cfg, d), cfg)
  {
    assert IsJob(cfg, JobNumber(cfg, s.count + 1));
  }

  lemma WorkKeepsGenuine(s: System, cfg: Setup, i: nat, w: WorkStep)
    requires |cfg.orders| > 0 && Genuine(s, cfg) && CanWork(s, cfg, i, w)
    ensures Genuine(AfterWork(s, cfg, i, w), cfg)
  {
  }

  lemma StepKeepsGenuine(s: System, cfg: Setup, a: Action)
    requires |cfg.orders| > 0 && Genuine(s, cfg) && Enabled(s, cfg, a)
    ensures Genuine(Apply(s, cfg, a), cfg)
  {
    match a
    case Dispatch(d) => DispatchKeepsGenuine(s, cfg, d);
    case Work(i, w) => WorkKeepsGenuine(s, cfg, i, w);
    case _ =>
  }

  lemma StepKeepsInv(s: System, cfg: Setup, a: Action)
    requires |cfg.orders| > 0 && Inv(s, cfg) && Enabled(s, cfg, a)
    ensures Inv(Apply(s, cfg, a), cfg)
  {
    StepKeepsShape(s, cfg, a);
    StepKeepsGenuine(s, cfg, a);
    match a
    case Dispatch(d) => DispatchConserves(s, cfg, d);
    case Work(i, w) => WorkConserves(s, cfg, i, w);
    case _ => RestConserves(s, cfg, a);
  }

  predicate Runs(from: System, cfg: Setup, actions: seq<Action>, to: System)
    requires |cfg.orders| > 0
    decreases |actions|
  {
    if actions == [] then from == to
    else
      && Enabled(from, cfg, actions[0])
      && Runs(Apply(from, cfg, actions[0]), cfg, actions[1..], to)
  }

  lemma {:induction false} RunKeepsInv(from: System, cfg: Setup, actions: seq<Action>, to: System)
    requires |cfg.orders| > 0 && Inv(from, cfg) && Runs(from, cfg, actions, to)
    ensures Inv(to, cfg)
    decreases |actions|
  {
    if actions != [] {
      StepKeepsInv(from, cfg, actions[0]);
      RunKeepsInv(Apply(from, cfg, actions[0]), cfg, actions[1..], to);
    }
  }

  lemma ReachedInv(cfg: Setup, actions: seq<Action>, s: System)
    requires |cfg.orders| > 0 && Runs(Start(cfg), cfg, actions, s)
    ensures Inv(s, cfg)
  {
    forall k: nat
      ensures CountHeld(Start(cfg).workers, k) == 0
    {
      NothingHeld(Start(cfg).workers, k);
    }
    RunKeepsInv(Start(cfg), cfg, actions, s);
  }

  /** Nobody is ever about to send on a closed channel. */
  lemma NoSendOnClosed(cfg: Setup, actions: seq<Action>, s: System)
    requires |cfg.orders| > 0 && Runs(Start(cfg), cfg, actions, s)
    ensures s.dispatcher.Sending? ==> !s.jobs.closed
    ensures (exists i :: 0 <= i < |s.workers| && s.workers[i].Replying?) ==> !s.results.closed
  {
    ReachedInv(cfg, actions, s);
  }

  /** Until the summary, something other than an interrupt can always move. */
  lemma NeverDeadlocks(cfg: Setup, actions: seq<Action>, s: System) returns (a: Action)
    requires |cfg.orders| > 0 && cfg.threads >= 1 && Runs(Start(cfg), cfg, actions, s)
    requires !s.main.Summary?
    ensures Enabled(s, cfg, a) && !a.Interrupt?
  {
    ReachedInv(cfg, actions, s);
    if s.collecting && s.results.items != [] {
      a := Collect;
    } else if i :| 0 <= i < |s.workers| && (s.workers[i].Busy? || s.workers[i].Replying?) {
      a := Work(i, if s.workers[i].Busy? then Answer else Reply);
    } else if AllQuit(s.workers) {
      a := if s.main.WaitingForWorkers? then CloseResults else if s.collecting then CollectorLeaves else Summarize;
    } else {
      var i :| 0 <= i < |s.workers| && !s.workers[i].Quit?;
      if s.jobs.items != [] {
        a := Work(i, Take);
      } else if s.jobs.closed {
        a := Work(i, Leave);
      } else {
        a := Dispatch(if s.dispatcher.AtLoop? then Next else if s.dispatcher.Sending? then Send else Resume);
      }
    }
  }

  /** Some step of the dispatcher that sends nothing and does not wait. */
  predicate DispatcherCanLeave(s: System, cfg: Setup) {
    CanDispatch(s, cfg, Next) || CanDispatch(s, cfg, GiveUp)
  }

  /**
   An interrupt stops new work: no further request is ever handed out, a dispatcher that sends or
   pauses can leave at once, and until the summary something can always move without any worker
   taking another job.
   */
  lemma InterruptDrains(cfg: Setup, actions: seq<Action>, s: System) returns (a: Action)
    requires |cfg.orders| > 0 && Runs(Start(cfg), cfg, actions, s) && s.interrupted && !s.main.Summary?
    ensures Enabled(s, cfg, a) && !a.Dispatch? && !(a.Work? && a.w.Take?) && !a.Interrupt?
    ensures !s.dispatcher.Gone? ==> DispatcherCanLeave(s, cfg)
    ensures forall b :: Enabled(s, cfg, b) ==> Apply(s, cfg, b).count == s.count && Apply(s, cfg, b).interrupted
  {
    ReachedInv(cfg, actions, s);
    if s.collecting && s.results.items != [] {
      a := Collect;
    } else if i :| 0 <= i < |s.workers| && !s.workers[i].Quit? {
      a := Work(i, if s.workers[i].Busy? then Answer else if s.workers[i].Replying? then Reply else Leave);
      assert cfg.threads >= 1;
    } else {
      a := if s.main.WaitingForWorkers? then CloseResults else if s.collecting then CollectorLeaves else Summarize;
    }
  }

  /**
   An uninterrupted run that reaches its summary has recorded every request number from 1 to the
   requested total exactly once, and nothing else, number k for order (k - 1) modulo their count.
   */
  lemma EveryRequestRecordedOnce(cfg: Setup, actions: seq<Action>, s: System, k: nat)
    requires |cfg.orders| > 0 && cfg.threads >= 1 && Runs(Start(cfg), cfg, actions, s)
    requires s.main.Summary? && !s.interrupted
    ensures cfg.requests > 0
    ensures CountJobs(s.recorded, k) == if 1 <= k <= cfg.requests then 1 else 0
    ensures forall i :: 0 <= i < |s.recorded| ==>
      && 1 <= s.recorded[i].seqNum <= cfg.requests
      && s.recorded[i].orderId == cfg.orders[(s.recorded[i].seqNum - 1) % |cfg.orders|]
  {
    ReachedInv(cfg, actions, s);
    NothingHeld(s.workers, k);
    assert s.workers[0].Quit?;
    assert Places(s, k) == if 1 <= k <= s.count then 1 else 0;
    forall i | 0 <= i < |s.recorded|
      ensures s.recorded[i].seqNum <= cfg.requests
    {
      var number := s.recorded[i].seqNum;
      CountedIfPresent(s.recorded, i);
      assert Places(s, number) == if 1 <= number <= s.count then 1 else 0;
    }
  }

  /**
   Interrupted or not, when the summary is reached every number handed out is recorded once, or
   still in the job queue, or the one the dispatcher gave up: no request that a worker took is lost.
   */
  lemma NothingTakenIsLost(cfg: Setup, actions: seq<Action>, s: System, k: nat)
    requires |cfg.orders| > 0 && Runs(Start(cfg), cfg, actions, s) && s.main.Summary?
    ensures CountJobs(s.recorded, k) + CountJobs(s.jobs.items, k)
      + (if s.unsent.Some? && s.unsent.value.seqNum == k then 1 else 0)
      + (if s.dispatcher.Sending? && s.dispatcher.job.seqNum == k then 1 else 0)
      == if 1 <= k <= s.count then 1 else 0
  {
    ReachedInv(cfg, actions, s);
    NothingHeld(s.workers, k);
    assert Places(s, k) == if 1 <= k <= s.count then 1 else 0;
  }

  // ---------- Every run ends ----------

  function WorkerRank(w: Worker): nat {
    match w
    case Idle => 1
    case Busy(_) => 4
    case Replying(_) => 3
    case Quit => 0
  }

  function WorkersRank(workers: seq<Worker>): nat {
    if workers == [] then 0 else WorkersRank(workers[..|workers| - 1]) + WorkerRank(workers[|workers| - 1])
  }

  function DispatcherRank(d: Dispatcher): nat {
    match d
    case AtLoop => 1
    case Sending(_) => 8
    case Pausing => 2
    case Gone => 0
  }

  /** Requests to come and requests under way, weighted by the steps they still need. */
  function Measure(s: System, cfg: Setup): nat {
    (if s.count < cfg.requests then 10 * (cfg.requests - s.count) else 0)
    + DispatcherRank(s.dispatcher) + 5 * |s.jobs.items| + WorkersRank(s.workers) + |s.results.items|
    + (if s.collecting then 1 else 0) + (if s.interrupted then 0 else 1)
    + (match s.main case WaitingForWorkers => 2 case WaitingForCollector => 1 case Summary => 0)
  }

  lemma {:induction false} RankAfterUpdate(workers: seq<Worker>, i: nat, w: Worker)
    requires i < |workers|
    ensures WorkersRank(workers[i := w]) + WorkerRank(workers[i]) == WorkersRank(workers) + WorkerRank(w)
    decreases |workers|
  {
    var n := |workers| - 1;
    if i == n {
      assert workers[i := w][..n] == workers[..n];
    } else {
      RankAfterUpdate(workers[..n], i, w);
      assert workers[i := w][..n] == workers[..n][i := w];
    }
  }

  lemma WorkLowersMeasure(s: System, cfg: Setup, i: nat, w: WorkStep)
    requires CanWork(s, cfg, i, w)
    ensures Measure(AfterWork(s, cfg, i, w), cfg) < Measure(s, cfg)
  {
    RankAfterUpdate(s.workers, i, AfterWork(s, cfg, i, w).workers[i]);
  }

  lemma DispatchLowersMeasure(s: System, cfg: Setup, d: DispatchStep)
    requires |cfg.orders| > 0 && CanDispatch(s, cfg, d) && (cfg.requests > 0 || s.interrupted)
    ensures Measure(AfterDispatch(s, cfg, d), cfg) < Measure(s, cfg)
  {
  }

  /** With a number of requests given, or once interrupted, every step of anyone lowers the measure. */
  lemma StepsTerminate(s: System, cfg: Setup, a: Action)
    requires |cfg.orders| > 0 && Enabled(s, cfg, a) && (cfg.requests > 0 || s.interrupted)
    ensures Measure(Apply(s, cfg, a), cfg) < Measure(s, cfg)
  {
    match a
    case Dispatch(d) => DispatchLowersMeasure(s, cfg, d);
    case Work(i, w) => WorkLowersMeasure(s, cfg, i, w);
    case _ =>
  }

  /** So a run has no more steps than the measure at its start. */
  lemma {:induction false} RunIsFinite(from: System, cfg: Setup, actions: seq<Action>, to: System)
    requires |cfg.orders| > 0 && Runs(from, cfg, actions, to) && (cfg.requests > 0 || from.interrupted)
    ensures |actions| + Measure(to, cfg) <= Measure(from, cfg)
    decreases |actions|
  {
    if actions != [] {
      StepsTerminate(from, cfg, actions[0]);
      RunIsFinite(Apply(from, cfg, actions[0]), cfg, actions[1..], to);
    }
  }

  lemma {:induction false} IdleRank(workers: seq<Worker>)
    requires forall i :: 0 <= i < |workers| ==> workers[i].Idle?
    ensures WorkersRank(workers) == |workers|
  {
    if workers != [] {
      IdleRank(workers[..|workers| - 1]);
    }
  }

  /**
   Every run with a number of requests given ends within ten steps per request and a few more,
   and by NeverDeadlocks it can only end in the summary.
   */
  lemma RunsAreBounded(cfg: Setup, actions: seq<Action>, s: System)
    requires |cfg.orders| > 0 && cfg.requests > 0 && Runs(Start(cfg), cfg, actions, s)
    ensures |actions| <= 10 * cfg.requests + cfg.threads + 5
  {
    RunIsFinite(Start(cfg), cfg, actions, s);
    IdleRank(Start(cfg).workers);
  }

  // ---------- The orders share the requests evenly ----------

  /** Request k asks for the order at position p. */
  predicate AsksFor(k: nat, orders: nat, p: nat)
    requires orders > 0
  {
    (k - 1) % orders == p
  }

  /** How many of these requests ask for the order at position p. */
  function CountAt(jobs: seq<Job>, orders: nat, p: nat): nat
    requires orders > 0
  {
    if jobs == [] then 0 else (if AsksFor(jobs[0].seqNum, orders, p) then 1 else 0) + CountAt(jobs[1..], orders, p)
  }

  /** The same count over the numbers 1..n. */
  function SumAt(jobs: seq<Job>, n: nat, orders: nat, p: nat): nat
    requires orders > 0
  {
    if n == 0 then 0 else SumAt(jobs, n - 1, orders, p) + (if AsksFor(n, orders, p) then CountJobs(jobs, n) else 0)
  }

  function Asked(n: nat, orders: nat, p: nat): nat
    requires orders > 0
  {
    if n == 0 then 0 else Asked(n - 1, orders, p) + (if AsksFor(n, orders, p) then 1 else 0)
  }

  lemma {:induction false} SumAtFirst(jobs: seq<Job>, n: nat, orders: nat, p: nat)
    requires orders > 0 && jobs != []
    ensures SumAt(jobs, n, orders, p) ==
      SumAt(jobs[1..], n, orders, p) + (if 1 <= jobs[0].seqNum <= n && AsksFor(jobs[0].seqNum, orders, p) then 1 else 0)
    decreases n
  {
    if n > 0 {
      SumAtFirst(jobs, n - 1, orders, p);
    }
  }

  lemma {:induction false} SumOfNone(n: nat, orders: nat, p: nat)
    requires orders > 0
    ensures SumAt([], n, orders, p) == 0
  {
    if n > 0 {
      SumOfNone(n - 1, orders, p);
    }
  }

  lemma {:induction false} CountIsSum(jobs: seq<Job>, n: nat, orders: nat, p: nat)
    requires orders > 0 && forall i :: 0 <= i < |jobs| ==> 1 <= jobs[i].seqNum <= n
    ensures CountAt(jobs, orders, p) == SumAt(jobs, n, orders, p)
    decreases |jobs|
  {
    if jobs == [] {
      SumOfNone(n, orders, p);
    } else {
      CountIsSum(jobs[1..], n, orders, p);
      SumAtFirst(jobs, n, orders, p);
    }
  }

  lemma {:induction false} SumOfOnceEach(jobs: seq<Job>, n: nat, orders: nat, p: nat)
    requires orders > 0 && forall k: nat :: 1 <= k <= n ==> CountJobs(jobs, k) == 1
    ensures SumAt(jobs, n, orders, p) == Asked(n, orders, p)
  {
    if n > 0 {
      SumOfOnceEach(jobs, n - 1, orders, p);
    }
  }

  lemma {:induction false} CountedIfPresent(jobs: seq<Job>, i: nat)
    requires i < |jobs|
    ensures CountJobs(jobs, jobs[i].seqNum) >= 1
    decreases i
  {
    if i > 0 {
      CountedIfPresent(jobs[1..], i - 1);
    }
  }

  lemma {:induction false} ModOfBlock(d: nat, q: nat, r: nat)
    requires r < d
    ensures (d * q + r) % d == r
  {
    var n := d * q + r;
    var q', r' := n / d, n % d;
    assert n == d * q' + r';
    if q' > q {
      MultipleAtLeast(d, q' - q);
    } else if q' < q {
      MultipleAtLeast(d, q - q');
    }
  }

  lemma MultipleAtLeast(d: nat, x: nat)
    requires x >= 1
    ensures d * x >= d
  {
  }

  /** Within a round each position is asked for in turn. */
  lemma {:induction false} AskedInTurn(base: nat, orders: nat, q: nat, r: nat, p: nat)
    requires p < orders && base == orders * q && r <= orders
    ensures Asked(base + r, orders, p) == Asked(base, orders, p) + (if p < r then 1 else 0)
    decreases r
  {
    if r > 0 {
      AskedInTurn(base, orders, q, r - 1, p);
      ModOfBlock(orders, q, r - 1);
      assert AsksFor(base + r, orders, p) <==> r - 1 == p;
    }
  }

  lemma {:induction false} AskedInRounds(base: nat, orders: nat, q: nat, p: nat)
    requires p < orders && base == orders * q
    ensures Asked(base, orders, p) == q
    decreases q
  {
    if q > 0 {
      var before := orders * (q - 1);
      assert base == before + orders;
      AskedInRounds(before, orders, q - 1, p);
      AskedInTurn(before, orders, q - 1, orders, p);
    }
  }

  /** Requests numbered 1..n, each once and in any order, ask evenly for all positions. */
  lemma {:induction false} EvenIfOnceEach(jobs: seq<Job>, n: nat, orders: nat, p: nat, q: nat, r: nat)
    requires p < orders && n == orders * q + r && r < orders
    requires forall k: nat :: CountJobs(jobs, k) == if 1 <= k <= n then 1 else 0
    ensures CountAt(jobs, orders, p) == q + (if p < r then 1 else 0)
  {
    forall i | 0 <= i < |jobs|
      ensures 1 <= jobs[i].seqNum <= n
    {
      CountedIfPresent(jobs, i);
    }
    CountIsSum(jobs, n, orders, p);
    SumOfOnceEach(jobs, n, orders, p);
    AskedInRounds(orders * q, orders, q, p);
    AskedInTurn(orders * q, orders, q, r, p);
  }

  /**
   An uninterrupted run that reaches its summary has recorded evenly many requests for all
   listed orders: each position its share of full rounds, and the first ones one more.
   */
  lemma {:induction false} RecordedEvenly(cfg: Setup, actions: seq<Action>, s: System, p: nat)
    requires |cfg.orders| > 0 && cfg.threads >= 1 && Runs(Start(cfg), cfg, actions, s)
    requires s.main.Summary? && !s.interrupted && p < |cfg.orders|
    ensures var orders := |cfg.orders|;
      CountAt(s.recorded, orders, p) == cfg.requests / orders + (if p < cfg.requests % orders then 1 else 0)
  {
    var orders, n := |cfg.orders|, cfg.requests;
    forall k: nat
      ensures CountJobs(s.recorded, k) == if 1 <= k <= n then 1 else 0
    {
      EveryRequestRecordedOnce(cfg, actions, s, k);
    }
    EvenIfOnceEach(s.recorded, n, orders, p, n / orders, n % orders);
  }

  /** How many of these requests were for the order with this id. */
  function CountFor(jobs: seq<Job>, id: Id): nat {
    if jobs == [] then 0 else (if jobs[0].orderId == id then 1 else 0) + CountFor(jobs[1..], id)
  }

  lemma {:induction false} PositionIsOrder(jobs: seq<Job>, orders: seq<Id>, p: nat)
    requires p < |orders| && forall i, j :: 0 <= i < j < |orders| ==> orders[i] != orders[j]
    requires forall i :: 0 <= i < |jobs| ==>
      1 <= jobs[i].seqNum && jobs[i].orderId == orders[(jobs[i].seqNum - 1) % |orders|]
    ensures CountFor(jobs, orders[p]) == CountAt(jobs, |orders|, p)
    decreases |jobs|
  {
    if jobs != [] {
      PositionIsOrder(jobs[1..], orders, p);
      var q := (jobs[0].seqNum - 1) % |orders|;
      assert jobs[0].orderId == orders[q];
      assert orders[q] == orders[p] <==> q == p;
    }
  }

  /** Counted by order id: every listed order is asked for its even share of the requests. */
  lemma {:induction false} OrdersAskedEvenly(cfg: Setup, actions: seq<Action>, s: System, p: nat)
    requires |cfg.orders| > 0 && cfg.threads >= 1 && Runs(Start(cfg), cfg, actions, s)
    requires s.main.Summary? && !s.interrupted && p < |cfg.orders|
    requires forall i, j :: 0 <= i < j < |cfg.orders| ==> cfg.orders[i] != cfg.orders[j]
    ensures CountFor(s.recorded, cfg.orders[p]) ==
      cfg.requests / |cfg.orders| + (if p < cfg.requests % |cfg.orders| then 1 else 0)
  {
    EveryRequestRecordedOnce(cfg, actions, s, 0);
    PositionIsOrder(s.recorded, cfg.orders, p);
    RecordedEvenly(cfg, actions, s, p);
  }

  /** No two listed orders differ by more than one recorded request. */
  lemma {:induction false} NoOrderIsFavoured(cfg: Setup, actions: seq<Action>, s: System, p: nat, q: nat)
    requires |cfg.orders| > 0 && cfg.threads >= 1 && Runs(Start(cfg), cfg, actions, s)
    requires s.main.Summary? && !s.interrupted && p < |cfg.orders| && q < |cfg.orders|
    ensures CountAt(s.recorded, |cfg.orders|, p) <= CountAt(s.recorded, |cfg.orders|, q) + 1
  {
    RecordedEvenly(cfg, actions, s, p);
    RecordedEvenly(cfg, actions, s, q);
  }
}
