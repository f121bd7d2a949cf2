/** The worker pool as atomic steps between awaits: what each step does, and the object that does it. */
module WorkerPool {
  import opened Options

  datatype Config = Config(minWorkers: nat, maxWorkers: nat, idleTimeoutMs: int, maxRetries: nat, scaleUpThreshold: int)

  datatype Task = Task(id: nat, priority: int, retries: nat)

  datatype WorkerStatus = Idle | Busy

  datatype Worker = Worker(
    id: nat,
    status: WorkerStatus,
    tasksCompleted: nat,
    tasksFailed: nat,
    currentTask: Option<Task>,
    lastActiveAt: int
  )

  datatype Outcome = Resolved | Rejected

  /** The pool: its queue, its workers in the order they were spawned, and the tasks whose promises
      it settled. `started` holds a task's id once for each call of the executor. */
  datatype Pool = Pool(
    queue: seq<Task>,
    workers: seq<Worker>,
    idCounter: nat,
    settled: seq<(Task, Outcome)>,
    started: multiset<nat>
  )

  // ---- The queue ----

  /** How many tasks at the front have a higher priority. */
  function Position(queue: seq<Task>, priority: int): (n: nat)
    ensures n <= |queue|
  {
    if queue == [] || queue[0].priority <= priority then 0 else 1 + Position(queue[1..], priority)
  }

  function Enqueued(queue: seq<Task>, t: Task): seq<Task> {
    var n := Position(queue, t.priority);
    queue[..n] + [t] + queue[n..]
  }

  predicate Sorted(queue: seq<Task>) {
    forall i, j :: 0 <= i < j < |queue| ==> queue[i].priority >= queue[j].priority
  }

  // ---- Dispatch ----

  predicate IsIdle(w: Worker) {
    w.status == Idle
  }

  /** The first idle worker with the most completed tasks. */
  function BestIdle(workers: seq<Worker>): (best: Option<nat>)
    ensures best.Some? ==> best.value < |workers| && IsIdle(workers[best.value])
  {
    if workers == [] then None
    else
      var n := |workers| - 1;
      var best := BestIdle(workers[..n]);
      if IsIdle(workers[n]) && (best.None? || workers[n].tasksCompleted > workers[best.value].tasksCompleted) then Some(n)
      else best
  }

  function Assigned(p: Pool, i: nat, t: Task): Pool
    requires i < |p.workers|
  {
    p.(workers := p.workers[i := p.workers[i].(status := Busy, currentTask := Some(t))],
       started := p.started + multiset{t.id})
  }

  function Dispatched(p: Pool): Pool {
    var best := BestIdle(p.workers);
    if p.queue == [] || best.None? then p
    else Assigned(p.(queue := p.queue[1..]), best.value, p.queue[0])
  }

  /** Dispatch for as long as there are tasks and idle workers. */
  function Stolen(p: Pool): Pool
    decreases |p.queue|
  {
    if p.queue == [] || BestIdle(p.workers).None? then p else Stolen(Dispatched(p))
  }

  // ---- Steps ----

  function Spawned(p: Pool, now: int): Pool {
    p.(workers := p.workers + [Worker(p.idCounter + 1, Idle, 0, 0, None, now)], idCounter := p.idCounter + 1)
  }

  function SpawnedMany(p: Pool, n: nat, now: int): Pool {
    if n == 0 then p else Spawned(SpawnedMany(p, n - 1, now), now)
  }

  const EMPTY := Pool([], [], 0, [], multiset{})

  function Started(cfg: Config, now: int): Pool {
    SpawnedMany(EMPTY, cfg.minWorkers, now)
  }

  function Submitted(p: Pool, priority: int): Pool {
    var t := Task(p.idCounter + 1, priority, 0);
    Dispatched(p.(idCounter := p.idCounter + 1, queue := Enqueued(p.queue, t)))
  }

  /** The task of a worker is over: the worker is idle, and picks up the next task. */
  function Completed(p: Pool, i: nat, now: int): Pool
    requires i < |p.workers|
  {
    Dispatched(p.(workers := p.workers[i := p.workers[i].(status := Idle, currentTask := None, lastActiveAt := now)]))
  }

  predicate Working(p: Pool, i: nat) {
    i < |p.workers| && p.workers[i].currentTask.Some?
  }

  function FinishedOk(p: Pool, i: nat, now: int): Pool
    requires Working(p, i)
  {
    var w := p.workers[i];
    Completed(p.(workers := p.workers[i := w.(tasksCompleted := w.tasksCompleted + 1)],
                 settled := p.settled + [(w.currentTask.value, Resolved)]), i, now)
  }

  function FinishedError(cfg: Config, p: Pool, i: nat, now: int): Pool
    requires Working(p, i)
  {
    var w := p.workers[i];
    var t := w.currentTask.value;
    if t.retries < cfg.maxRetries then
      Completed(p.(queue := Enqueued(p.queue, t.(retries := t.retries + 1))), i, now)
    else
      Completed(p.(workers := p.workers[i := w.(tasksFailed := w.tasksFailed + 1)],
                   settled := p.settled + [(t, Rejected)]), i, now)
  }

  // ---- Scaling ----

  function Min(a: int, b: int): int {
    if a < b then a else b
  }

  /** The quotient of queue length and threshold, rounded up, but no more than there is room for; without a positive
      threshold, the quotient is not a number, infinite, or not positive. */
  function ToAdd(queueLen: nat, threshold: int, room: nat): (n: nat)
    ensures n <= room
  {
    if threshold > 0 then Min((queueLen + threshold - 1) / threshold, room)
    else if threshold == 0 && queueLen > 0 then room
    else 0
  }

  predicate IsExpired(cfg: Config, w: Worker, now: int) {
    IsIdle(w) && now - w.lastActiveAt > cfg.idleTimeoutMs
  }

  function ExpiredIds(cfg: Config, workers: seq<Worker>, now: int): (ids: seq<nat>)
    ensures |ids| <= |workers|
  {
    if workers == [] then []
    else
      var n := |workers| - 1;
      ExpiredIds(cfg, workers[..n], now) + if IsExpired(cfg, workers[n], now) then [workers[n].id] else []
  }

  function Without(workers: seq<Worker>, id: nat): (r: seq<Worker>)
    ensures |r| <= |workers|
  {
    if workers == [] then []
    else
      var n := |workers| - 1;
      Without(workers[..n], id) + if workers[n].id == id then [] else [workers[n]]
  }

  function WithoutAll(workers: seq<Worker>, ids: seq<nat>): (r: seq<Worker>)
    ensures |r| <= |workers|
  {
    if ids == [] then workers else Without(WithoutAll(workers, ids[..|ids| - 1]), ids[|ids| - 1])
  }

  function ScaledUp(cfg: Config, p: Pool, now: int): Pool {
    if |p.queue| >= cfg.scaleUpThreshold && |p.workers| < cfg.maxWorkers
    then SpawnedMany(p, ToAdd(|p.queue|, cfg.scaleUpThreshold, cfg.maxWorkers - |p.workers|), now)
    else p
  }

  /** Remove idle workers, `current` being how many there were before scaling up. */
  function ScaledDown(cfg: Config, p: Pool, current: nat, now: int): Pool {
    if current > cfg.minWorkers then
      var ids := ExpiredIds(cfg, p.workers, now);
      p.(workers := WithoutAll(p.workers, ids[..Min(|ids|, current - cfg.minWorkers)]))
    else p
  }

  function AutoScaled(cfg: Config, p: Pool, now: int): Pool {
    ScaledDown(cfg, ScaledUp(cfg, p, now), |p.workers|, now)
  }

  // ---- The pool object ----

  class ElasticPool {
    const cfg: Config
    var taskQueue: seq<Task>
    var workers: seq<Worker>
    var idCounter: nat
    var settled: seq<(Task, Outcome)>
    ghost var started: multiset<nat>

    ghost function Now(): Pool
      reads this
    {
      Pool(taskQueue, workers, idCounter, settled, started)
    }

    constructor (cfg: Config)
      ensures this.cfg == cfg && Now() == EMPTY
    {
      this.cfg := cfg;
      taskQueue, workers, idCounter, settled, started := [], [], 0, [], multiset{};
    }

    method Start(now: int)
      requires Now() == EMPTY
      modifies this
      ensures Now() == Started(cfg, now)
    {
      for i := 0 to cfg.minWorkers
        invariant Now() == SpawnedMany(EMPTY, i, now)
      {
        SpawnWorker(now);
      }
    }

    method SpawnWorker(now: int)
      modifies this
      ensures Now() == Spawned(old(Now()), now)
    {
      idCounter := idCounter + 1;
      workers := workers + [Worker(idCounter, Idle, 0, 0, None, now)];
    }

    method Submit(priority: int)
      requires Sorted(taskQueue)
      modifies this
      ensures Now() == Submitted(old(Now()), priority)
    {
      hide Enqueued, Dispatched, Sorted;
      idCounter := idCounter + 1;
      Enqueue(Task(idCounter, priority, 0));
      DispatchNext();
    }

    /** Binary insertion: before the first task whose priority is not higher. */
    method Enqueue(task: Task)
      requires Sorted(taskQueue)
      modifies `taskQueue
      ensures taskQueue == Enqueued(old(taskQueue), task)
    {
      var lo, hi := 0, |taskQueue|;
      while lo < hi
        invariant 0 <= lo <= hi <= |taskQueue|
        invariant forall i :: 0 <= i < lo ==> taskQueue[i].priority > task.priority
        invariant forall i :: hi <= i < |taskQueue| ==> taskQueue[i].priority <= task.priority
      {
        var mid := (lo + hi) / 2;
        if taskQueue[mid].priority > task.priority {
          lo := mid + 1;
        } else {
          hi := mid;
        }
      }
      PositionIs(taskQueue, task.priority, lo);
      taskQueue := taskQueue[..lo] + [task] + taskQueue[lo..];
    }

    method DispatchNext()
      modifies this
      ensures Now() == Dispatched(old(Now()))
    {
      hide BestIdle;
      if |taskQueue| == 0 {
        return;
      }
      var idle := FindIdleWorker();
      if idle.None? {
        return;
      }
      var task := taskQueue[0];
      taskQueue := taskQueue[1..];
      AssignTask(idle.value, task);
    }

    method FindIdleWorker() returns (best: Option<nat>)
      ensures best == BestIdle(workers)
    {
      best := None;
      for i := 0 to |workers|
        invariant best == BestIdle(workers[..i])
      {
        assert workers[..i + 1][..i] == workers[..i];
        if !IsIdle(workers[i]) {
          continue;
        }
        if best.None? || workers[i].tasksCompleted > workers[best.value].tasksCompleted {
          best := Some(i);
        }
      }
      assert workers[..|workers|] == workers;
    }

    method AssignTask(i: nat, task: Task)
      requires i < |workers|
      modifies this
      ensures Now() == Assigned(old(Now()), i, task)
    {
      workers := workers[i := workers[i].(status := Busy, currentTask := Some(task))];
      started := started + multiset{task.id};
    }

    /** The executor's promise resolved. */
    method FinishOk(i: nat, now: int)
      requires Working(Now(), i)
      modifies this
      ensures Now() == FinishedOk(old(Now()), i, now)
    {
      hide Completed;
      settled := settled + [(workers[i].currentTask.value, Resolved)];
      workers := workers[i := workers[i].(tasksCompleted := workers[i].tasksCompleted + 1)];
      OnTaskComplete(i, now);
    }

    /** The executor's promise was rejected, or timed out. */
    method FinishError(i: nat, now: int)
      requires Working(Now(), i) && Sorted(taskQueue)
      modifies this
      ensures Now() == FinishedError(cfg, old(Now()), i, now)
    {
      hide Completed, Enqueued, Sorted;
      var task := workers[i].currentTask.value;
      if task.retries < cfg.maxRetries {
        Enqueue(task.(retries := task.retries + 1));
      } else {
        workers := workers[i := workers[i].(tasksFailed := workers[i].tasksFailed + 1)];
        settled := settled + [(task, Rejected)];
      }
      OnTaskComplete(i, now);
    }

    method OnTaskComplete(i: nat, now: int)
      requires i < |workers|
      modifies this
      ensures Now() == Completed(old(Now()), i, now)
    {
      hide Dispatched;
      workers := workers[i := workers[i].(status := Idle, currentTask := None, lastActiveAt := now)];
      DispatchNext();
    }

    /** The health check, no task being stuck. */
    method HealthCheck()
      modifies this
      ensures Now() == Stolen(old(Now()))
    {
      AttemptTaskStealing();
    }

    method AttemptTaskStealing()
      modifies this
      ensures Now() == Stolen(old(Now()))
    {
      hide BestIdle;
      while |taskQueue| > 0
        invariant Stolen(Now()) == Stolen(old(Now()))
        decreases |taskQueue|
      {
        var idle := FindIdleWorker();
        if idle.None? {
          break;
        }
        ghost var p := Now();
        var task := taskQueue[0];
        taskQueue := taskQueue[1..];
        AssignTask(idle.value, task);
        assert Now() == Dispatched(p);
      }
    }

    method AutoScale(now: int)
      modifies this
      ensures Now() == AutoScaled(cfg, old(Now()), now)
    {
      hide ScaledUp, ScaledDown;
      var current := |workers|;
      ScaleUp(now);
      ScaleDown(current, now);
    }

    method ScaleUp(now: int)
      modifies this
      ensures Now() == ScaledUp(cfg, old(Now()), now)
    {
      hide ToAdd, Spawned;
      if |taskQueue| >= cfg.scaleUpThreshold && |workers| < cfg.maxWorkers {
        var toAdd := ToAdd(|taskQueue|, cfg.scaleUpThreshold, cfg.maxWorkers - |workers|);
        for i := 0 to toAdd
          invariant Now() == SpawnedMany(old(Now()), i, now)
        {
          SpawnWorker(now);
        }
      }
    }

    method ScaleDown(current: nat, now: int)
      modifies this
      ensures Now() == ScaledDown(cfg, old(Now()), current, now)
    {
      hide Without;
      if current > cfg.minWorkers {
        var ids := IdleWorkers(now);
        var toRemove := Min(|ids|, current - cfg.minWorkers);
        for i := 0 to toRemove
          invariant Now() == old(Now()).(workers := WithoutAll(old(workers), ids[..i]))
        {
          assert ids[..i + 1][..i] == ids[..i];
          ShutdownWorker(ids[i]);
        }
      }
    }

    method IdleWorkers(now: int) returns (ids: seq<nat>)
      ensures ids == ExpiredIds(cfg, workers, now)
    {
      ids := [];
      for i := 0 to |workers|
        invariant ids == ExpiredIds(cfg, workers[..i], now)
      {
        assert workers[..i + 1][..i] == workers[..i];
        if IsExpired(cfg, workers[i], now) {
          ids := ids + [workers[i].id];
        }
      }
      assert workers[..|workers|] == workers;
    }

    /** An idle worker is gone at once. */
    method ShutdownWorker(id: nat)
      modifies `workers
      ensures workers == Without(old(workers), id)
    {
      var kept := [];
      for i := 0 to |workers|
        invariant workers == old(workers) && kept == Without(workers[..i], id)
      {
        assert workers[..i + 1][..i] == workers[..i];
        if workers[i].id != id {
          kept := kept + [workers[i]];
        }
      }
      assert workers[..|workers|] == workers;
      workers := kept;
    }
  }

  /** The position found by bisection is the position. */
  lemma {:induction false} PositionIs(queue: seq<Task>, priority: int, n: nat)
    requires n <= |queue|
    requires forall i :: 0 <= i < n ==> queue[i].priority > priority
    requires n < |queue| ==> queue[n].priority <= priority
    ensures Position(queue, priority) == n
    decreases n
  {
    if n == 0 {
    } else {
      PositionIs(queue[1..], priority, n - 1);
    }
  }
}
