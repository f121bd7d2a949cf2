/** Laws of the worker pool over every interleaving of its steps: no task is lost or held twice, runs
    are bounded, and the queue is served by priority. */
module PoolLaws {
  import opened Options
  import opened WorkerPool

  // ---- Where tasks are ----

  /** The tasks that the workers hold. */
  function Current(workers: seq<Worker>): (ts: seq<Task>) {
    if workers == [] then []
    else
      var n := |workers| - 1;
      Current(workers[..n]) + Holds(workers[n])
  }

  function Holds(w: Worker): seq<Task> {
    if w.currentTask.Some? then [w.currentTask.value] else []
  }

  function SettledTasks(settled: seq<(Task, Outcome)>): (ts: seq<Task>)
    ensures |ts| == |settled|
  {
    if settled == [] then [] else SettledTasks(settled[..|settled| - 1]) + [settled[|settled| - 1].0]
  }

  function Held(ts: seq<Task>): multiset<nat> {
    if ts == [] then multiset{} else multiset{ts[0].id} + Held(ts[1..])
  }

  /** `n` times an id. */
  function Times(id: nat, n: nat): multiset<nat> {
    multiset{}[id := n]
  }

  /** The calls of the executor that the tasks have had, `extra` more than they had retries. */
  function Spent(ts: seq<Task>, extra: nat): multiset<nat> {
    if ts == [] then multiset{} else Times(ts[0].id, ts[0].retries + extra) + Spent(ts[1..], extra)
  }

  // ---- Invariants ----

  /** Each submitted task is in exactly one place, and the calls of the executor are accounted for. */
  ghost predicate Books(p: Pool, submitted: set<nat>) {
    && Held(p.queue) + Held(Current(p.workers)) + Held(SettledTasks(p.settled)) == multiset(submitted)
    && Spent(p.queue, 0) + Spent(Current(p.workers), 1) + Spent(SettledTasks(p.settled), 1) == p.started
  }

  predicate RetriesUpTo(ts: seq<Task>, n: nat) {
    forall i :: 0 <= i < |ts| ==> ts[i].retries <= n
  }

  ghost predicate RetriesOk(cfg: Config, p: Pool) {
    && RetriesUpTo(p.queue, cfg.maxRetries)
    && RetriesUpTo(Current(p.workers), cfg.maxRetries)
    && RetriesUpTo(SettledTasks(p.settled), cfg.maxRetries)
  }

  /** A worker is busy exactly when it holds a task; ids are the worker's own. */
  predicate WorkersOk(workers: seq<Worker>, counter: nat) {
    (forall i :: 0 <= i < |workers| ==> WorkerOk(workers[i], counter)) && DistinctIds(workers)
  }

  predicate WorkerOk(w: Worker, counter: nat) {
    (w.status == Busy <==> w.currentTask.Some?) && w.id <= counter
  }

  predicate DistinctIds(workers: seq<Worker>) {
    forall i, j :: 0 <= i < j < |workers| ==> workers[i].id != workers[j].id
  }

  predicate SizeOk(cfg: Config, n: nat) {
    cfg.minWorkers <= n && (n <= cfg.maxWorkers || n <= cfg.minWorkers)
  }

  ghost predicate Inv(cfg: Config, p: Pool, submitted: set<nat>) {
    && Sorted(p.queue)
    && Books(p, submitted)
    && RetriesOk(cfg, p)
    && WorkersOk(p.workers, p.idCounter)
    && SizeOk(cfg, |p.workers|)
    && forall id :: id in submitted ==> id <= p.idCounter
  }

  /** Nothing waits while a worker is idle. */
  predicate Quiet(p: Pool) {
    p.queue == [] || BestIdle(p.workers).None?
  }

  // ---- Sums over tasks ----

  lemma {:induction false} HeldConcat(a: seq<Task>, b: seq<Task>)
    ensures Held(a + b) == Held(a) + Held(b)
  {
    if a == [] {
      assert a + b == b;
    } else {
      assert (a + b)[1..] == a[1..] + b;
      HeldConcat(a[1..], b);
    }
  }

  lemma {:induction false} SpentConcat(a: seq<Task>, b: seq<Task>, extra: nat)
    ensures Spent(a + b, extra) == Spent(a, extra) + Spent(b, extra)
  {
    hide Times;
    if a == [] {
      assert a + b == b;
    } else {
      assert (a + b)[1..] == a[1..] + b;
      SpentConcat(a[1..], b, extra);
    }
  }

  lemma {:induction false} OneTask(t: Task, extra: nat)
    ensures Held([t]) == multiset{t.id} && Spent([t], extra) == Times(t.id, t.retries + extra)
  {
    assert [t][1..] == [];
  }

  /** A task put into the middle of others. */
  lemma {:induction false} Between(a: seq<Task>, ts: seq<Task>, b: seq<Task>, extra: nat)
    ensures Held(a + ts + b) == Held(a + b) + Held(ts)
    ensures Spent(a + ts + b, extra) == Spent(a + b, extra) + Spent(ts, extra)
  {
    hide Held, Spent;
    HeldConcat(a + ts, b);
    HeldConcat(a, ts);
    HeldConcat(a, b);
    SpentConcat(a + ts, b, extra);
    SpentConcat(a, ts, extra);
    SpentConcat(a, b, extra);
  }

  lemma {:induction false} CurrentConcat(a: seq<Worker>, b: seq<Worker>)
    ensures Current(a + b) == Current(a) + Current(b)
    decreases |b|
  {
    hide Holds;
    if b == [] {
      assert a + b == a;
    } else {
      var n := |b| - 1;
      assert (a + b)[..|a| + n] == a + b[..n] && (a + b)[|a| + n] == b[n];
      CurrentConcat(a, b[..n]);
      assert Current(a) + Current(b[..n]) + Holds(b[n]) == Current(a) + (Current(b[..n]) + Holds(b[n]));
    }
  }

  lemma {:induction false} CurrentOne(w: Worker)
    ensures Current([w]) == Holds(w)
  {
    assert [w][..0] == [];
  }

  /** What the workers hold, around the `i`-th. */
  lemma {:induction false} CurrentAround(workers: seq<Worker>, i: nat, w: Worker) returns (a: seq<Task>, b: seq<Task>)
    requires i < |workers|
    ensures Current(workers) == a + Holds(workers[i]) + b
    ensures Current(workers[i := w]) == a + Holds(w) + b
  {
    hide Current, Holds;
    a, b := Current(workers[..i]), Current(workers[i + 1..]);
    assert workers == workers[..i] + [workers[i]] + workers[i + 1..];
    assert workers[i := w] == workers[..i] + [w] + workers[i + 1..];
    CurrentConcat(workers[..i] + [workers[i]], workers[i + 1..]);
    CurrentConcat(workers[..i], [workers[i]]);
    CurrentConcat(workers[..i] + [w], workers[i + 1..]);
    CurrentConcat(workers[..i], [w]);
    CurrentOne(workers[i]);
    CurrentOne(w);
  }

  /** A worker that held nothing takes a task. */
  lemma {:induction false} TakesTask(workers: seq<Worker>, i: nat, w: Worker, t: Task)
    requires i < |workers| && workers[i].currentTask.None? && w.currentTask == Some(t)
    ensures var before, after := Current(workers), Current(workers[i := w]);
      && Held(after) == Held(before) + multiset{t.id}
      && Spent(after, 1) == Spent(before, 1) + Times(t.id, t.retries + 1)
      && |after| == |before| + 1
      && (forall n :: RetriesUpTo(before, n) && t.retries <= n ==> RetriesUpTo(after, n))
  {
    hide Current, Held, Spent, Times;
    var a, b := CurrentAround(workers, i, w);
    assert a + [] + b == a + b;
    Between(a, [t], b, 1);
    OneTask(t, 1);
    assert forall j :: 0 <= j < |a + [t] + b| ==>
      (a + [t] + b)[j] == if j == |a| then t else (a + b)[if j < |a| then j else j - 1];
  }

  /** A worker lets go of its task. */
  lemma {:induction false} LetsGo(workers: seq<Worker>, i: nat, w: Worker, t: Task)
    requires i < |workers| && workers[i].currentTask == Some(t) && w.currentTask.None?
    ensures var before, after := Current(workers), Current(workers[i := w]);
      && Held(before) == Held(after) + multiset{t.id}
      && Spent(before, 1) == Spent(after, 1) + Times(t.id, t.retries + 1)
      && |before| == |after| + 1
      && (forall n :: RetriesUpTo(before, n) ==> RetriesUpTo(after, n) && t.retries <= n)
  {
    hide Current, Held, Spent, Times;
    var a, b := CurrentAround(workers, i, w);
    assert a + [] + b == a + b;
    Between(a, [t], b, 1);
    OneTask(t, 1);
    assert (a + [t] + b)[|a|] == t;
    assert forall j :: 0 <= j < |a + b| ==> (a + b)[j] == (a + [t] + b)[if j < |a| then j else j + 1];
  }

  // ---- The queue ----

  lemma {:induction false} PositionSplits(queue: seq<Task>, priority: int)
    requires Sorted(queue)
    ensures var n := Position(queue, priority);
      && (forall i :: 0 <= i < n ==> queue[i].priority > priority)
      && (forall i :: n <= i < |queue| ==> queue[i].priority <= priority)
  {
    if queue != [] && queue[0].priority > priority {
      PositionSplits(queue[1..], priority);
      var n := Position(queue[1..], priority);
      assert forall i :: 1 <= i < |queue| ==> queue[i] == queue[1..][i - 1];
    }
  }

  /** Enqueueing keeps the queue sorted and the order of the others, and puts the task behind every
      higher priority and before its equals. */
  lemma {:induction false} EnqueueIsStableInsert(queue: seq<Task>, t: Task)
    requires Sorted(queue)
    ensures var r := Enqueued(queue, t);
      && Sorted(r)
      && exists n :: 0 <= n <= |queue| && r == queue[..n] + [t] + queue[n..]
           && (forall i :: 0 <= i < n ==> r[i].priority > t.priority)
           && (forall i :: n < i < |r| ==> r[i].priority <= t.priority)
  {
    hide Position;
    PositionSplits(queue, t.priority);
    var n := Position(queue, t.priority);
    var r := Enqueued(queue, t);
    assert forall i :: 0 <= i < |r| ==> r[i] == if i < n then queue[i] else if i == n then t else queue[i - 1];
  }

  predicate IsBestIdle(workers: seq<Worker>, i: int) {
    && 0 <= i < |workers| && IsIdle(workers[i])
    && forall j :: 0 <= j < |workers| && IsIdle(workers[j]) ==> workers[j].tasksCompleted <= workers[i].tasksCompleted
  }

  /** Dispatching hands a task of the highest priority to an idle worker with the most completed
      tasks, and does nothing only where there is no task or no idle worker. */
  lemma {:induction false} DispatchTakesHighest(p: Pool)
    requires Sorted(p.queue)
    ensures var q := Dispatched(p);
      if Quiet(p) then q == p
      else
        && (forall t :: t in p.queue ==> t.priority <= p.queue[0].priority)
        && q.queue == p.queue[1..]
        && (exists i :: IsBestIdle(p.workers, i)
             && q.workers == p.workers[i := p.workers[i].(status := Busy, currentTask := Some(p.queue[0]))])
  {
    hide BestIdle;
    BestIdleIsBest(p.workers);
    if !Quiet(p) {
      assert IsBestIdle(p.workers, BestIdle(p.workers).value);
    }
  }

  lemma {:induction false} BestIdleIsBest(workers: seq<Worker>)
    ensures match BestIdle(workers)
      case None => forall j :: 0 <= j < |workers| ==> !IsIdle(workers[j])
      case Some(i) => forall j :: 0 <= j < |workers| && IsIdle(workers[j]) ==>
        workers[j].tasksCompleted < workers[i].tasksCompleted || (i <= j && workers[j].tasksCompleted == workers[i].tasksCompleted)
  {
    if workers == [] {
    } else {
      var n := |workers| - 1;
      BestIdleIsBest(workers[..n]);
      assert forall j :: 0 <= j < n ==> workers[..n][j] == workers[j];
    }
  }

  lemma {:induction false} EnqueuedBooks(queue: seq<Task>, t: Task, n: nat)
    requires Sorted(queue)
    ensures var r := Enqueued(queue, t);
      && Held(r) == Held(queue) + multiset{t.id}
      && Spent(r, 0) == Spent(queue, 0) + Times(t.id, t.retries)
      && Sorted(r)
      && (RetriesUpTo(queue, n) && t.retries <= n ==> RetriesUpTo(r, n))
  {
    hide Held, Spent, Times, Position;
    EnqueueIsStableInsert(queue, t);
    var k := Position(queue, t.priority);
    assert queue[..k] + queue[k..] == queue;
    Between(queue[..k], [t], queue[k..], 0);
    OneTask(t, 0);
  }

  // ---- Each step keeps the invariant ----

  lemma {:induction false} DispatchKeeps(cfg: Config, p: Pool, submitted: set<nat>)
    requires Inv(cfg, p, submitted)
    ensures Inv(cfg, Dispatched(p), submitted)
    ensures |Dispatched(p).started| - |Current(Dispatched(p).workers)| == |p.started| - |Current(p.workers)|
    ensures Dispatched(p).idCounter == p.idCounter
  {
    hide BestIdle, Current, Held, Spent, SettledTasks;
    if !Quiet(p) {
      var i, t := BestIdle(p.workers).value, p.queue[0];
      var w := p.workers[i].(status := Busy, currentTask := Some(t));
      TakesTask(p.workers, i, w, t);
      FirstTask(p.queue);
      TimesMore(t.id, t.retries);
    }
  }

  lemma FirstTask(queue: seq<Task>)
    requires queue != []
    ensures Held(queue) == multiset{queue[0].id} + Held(queue[1..])
    ensures Spent(queue, 0) == Times(queue[0].id, queue[0].retries) + Spent(queue[1..], 0)
  {
  }

  lemma TimesMore(id: nat, n: nat)
    ensures Times(id, n + 1) == Times(id, n) + multiset{id}
  {
  }

  lemma {:induction false} SettledSnoc(settled: seq<(Task, Outcome)>, t: Task, outcome: Outcome, n: nat)
    ensures var before, after := SettledTasks(settled), SettledTasks(settled + [(t, outcome)]);
      && Held(after) == Held(before) + multiset{t.id}
      && Spent(after, 1) == Spent(before, 1) + Times(t.id, t.retries + 1)
      && (RetriesUpTo(before, n) && t.retries <= n ==> RetriesUpTo(after, n))
  {
    hide Held, Spent, Times;
    assert (settled + [(t, outcome)])[..|settled|] == settled;
    HeldConcat(SettledTasks(settled), [t]);
    SpentConcat(SettledTasks(settled), [t], 1);
    OneTask(t, 1);
  }

  /** A worker's task is settled, and the worker is idle. */
  lemma {:induction false} SettleKeeps(cfg: Config, p: Pool, submitted: set<nat>, i: nat, w: Worker, outcome: Outcome)
    requires Inv(cfg, p, submitted) && Working(p, i) && w.status == Idle && w.currentTask.None? && w.id == p.workers[i].id
    ensures var q := p.(workers := p.workers[i := w], settled := p.settled + [(p.workers[i].currentTask.value, outcome)]);
      Inv(cfg, q, submitted) && |Current(q.workers)| == |Current(p.workers)| - 1
  {
    hide Current, Held, Spent, SettledTasks, Times;
    var t := p.workers[i].currentTask.value;
    LetsGo(p.workers, i, w, t);
    SettledSnoc(p.settled, t, outcome, cfg.maxRetries);
  }

  /** A worker's task goes back to the queue, with one retry more. */
  lemma {:induction false} RetryKeeps(cfg: Config, p: Pool, submitted: set<nat>, i: nat, w: Worker)
    requires Inv(cfg, p, submitted) && Working(p, i) && w.status == Idle && w.currentTask.None? && w.id == p.workers[i].id
    requires p.workers[i].currentTask.value.retries < cfg.maxRetries
    ensures var t := p.workers[i].currentTask.value;
      var q := p.(workers := p.workers[i := w], queue := Enqueued(p.queue, t.(retries := t.retries + 1)));
      Inv(cfg, q, submitted) && |Current(q.workers)| == |Current(p.workers)| - 1
  {
    hide Current, Held, Spent, SettledTasks, Times, Sorted, Enqueued;
    var t := p.workers[i].currentTask.value;
    LetsGo(p.workers, i, w, t);
    EnqueuedBooks(p.queue, t.(retries := t.retries + 1), cfg.maxRetries);
  }

  lemma {:induction false} NewTaskKeeps(cfg: Config, p: Pool, submitted: set<nat>, priority: int)
    requires Inv(cfg, p, submitted)
    ensures var id := p.idCounter + 1;
      var q := p.(idCounter := id, queue := Enqueued(p.queue, Task(id, priority, 0)));
      id !in submitted && Inv(cfg, q, submitted + {id})
  {
    hide Current, Held, Spent, SettledTasks, Sorted, Enqueued;
    var id := p.idCounter + 1;
    EnqueuedBooks(p.queue, Task(id, priority, 0), cfg.maxRetries);
    assert Times(id, 0) == multiset{};
    assert multiset(submitted + {id}) == multiset(submitted) + multiset{id};
  }

  // ---- Scaling keeps the invariant ----

  /** The invariant without the bounds on the number of workers. */
  ghost predicate Core(cfg: Config, p: Pool, submitted: set<nat>) {
    && Sorted(p.queue) && Books(p, submitted) && RetriesOk(cfg, p) && WorkersOk(p.workers, p.idCounter)
    && forall id :: id in submitted ==> id <= p.idCounter
  }

  lemma {:induction false} SpawnKeeps(cfg: Config, p: Pool, submitted: set<nat>, n: nat, now: int)
    requires Core(cfg, p, submitted)
    ensures var q := SpawnedMany(p, n, now);
      && Core(cfg, q, submitted) && |q.workers| == |p.workers| + n && Current(q.workers) == Current(p.workers)
      && q.queue == p.queue && q.started == p.started
  {
    hide Held, Spent, SettledTasks, Sorted, Current;
    if n == 0 {
    } else {
      SpawnKeeps(cfg, p, submitted, n - 1, now);
      var q := SpawnedMany(p, n - 1, now);
      SpawnedHoldsNothing(q.workers, Worker(q.idCounter + 1, Idle, 0, 0, None, now));
    }
  }

  lemma {:induction false} SpawnedHoldsNothing(workers: seq<Worker>, w: Worker)
    requires w.currentTask.None?
    ensures Current(workers + [w]) == Current(workers)
  {
    assert (workers + [w])[..|workers|] == workers;
  }

  lemma {:induction false} WithoutMembers(workers: seq<Worker>, id: nat)
    ensures forall w :: w in Without(workers, id) <==> w in workers && w.id != id
  {
    if workers == [] {
    } else {
      var n := |workers| - 1;
      WithoutMembers(workers[..n], id);
      assert workers == workers[..n] + [workers[n]];
    }
  }

  lemma {:induction false} WithoutDistinct(workers: seq<Worker>, id: nat)
    requires DistinctIds(workers)
    ensures DistinctIds(Without(workers, id))
  {
    hide DistinctIds;
    if workers == [] {
    } else {
      var n := |workers| - 1;
      DistinctInit(workers);
      WithoutDistinct(workers[..n], id);
      WithoutMembers(workers[..n], id);
      hide Without;
      WithoutLast(workers, id);
      DistinctSnoc(Without(workers[..n], id), workers[n]);
    }
  }

  lemma DistinctInit(workers: seq<Worker>)
    requires workers != [] && DistinctIds(workers)
    ensures var n := |workers| - 1;
      DistinctIds(workers[..n]) && forall w :: w in workers[..n] ==> w.id != workers[n].id
  {
  }

  lemma {:induction false} DistinctSnoc(workers: seq<Worker>, w: Worker)
    requires DistinctIds(workers) && forall v :: v in workers ==> v.id != w.id
    ensures DistinctIds(workers + [w])
  {
    assert forall i :: 0 <= i < |workers| ==> workers[i] in workers;
  }

  lemma {:induction false} WithoutOk(workers: seq<Worker>, id: nat, counter: nat)
    requires WorkersOk(workers, counter)
    ensures WorkersOk(Without(workers, id), counter)
  {
    hide Without, DistinctIds, WorkerOk;
    WithoutDistinct(workers, id);
    WithoutMembers(workers, id);
    var r := Without(workers, id);
    forall i | 0 <= i < |r|
      ensures WorkerOk(r[i], counter)
    {
      assert r[i] in r;
    }
  }

  lemma WithoutLast(workers: seq<Worker>, id: nat)
    requires workers != []
    ensures var n := |workers| - 1;
      Without(workers, id) == if workers[n].id == id then Without(workers[..n], id) else Without(workers[..n], id) + [workers[n]]
  {
  }

  /** Removing a worker that holds nothing. */
  lemma {:induction false} WithoutKeeps(workers: seq<Worker>, id: nat)
    requires DistinctIds(workers)
    requires forall w :: w in workers && w.id == id ==> w.currentTask.None?
    ensures Current(Without(workers, id)) == Current(workers) && |Without(workers, id)| + 1 >= |workers|
  {
    hide Without, Current, DistinctIds;
    if workers == [] {
      WithoutNobody(id);
    } else {
      var n := |workers| - 1;
      assert workers == workers[..n] + [workers[n]];
      WithoutLast(workers, id);
      SpawnedLike(workers[..n], workers[n]);
      DistinctInit(workers);
      if workers[n].id == id {
        NoneWithout(workers[..n], id);
      } else {
        WithoutKeeps(workers[..n], id);
        SpawnedLike(Without(workers[..n], id), workers[n]);
      }
    }
  }

  lemma WithoutNobody(id: nat)
    ensures Without([], id) == []
  {
  }

  lemma OkIsDistinct(workers: seq<Worker>, counter: nat)
    requires WorkersOk(workers, counter)
    ensures DistinctIds(workers)
  {
  }

  lemma {:induction false} SpawnedLike(workers: seq<Worker>, w: Worker)
    ensures Current(workers + [w]) == Current(workers) + Holds(w)
  {
    assert (workers + [w])[..|workers|] == workers;
  }

  lemma {:induction false} NoneWithout(workers: seq<Worker>, id: nat)
    requires forall i :: 0 <= i < |workers| ==> workers[i].id != id
    ensures Without(workers, id) == workers
  {
    if workers == [] {
    } else {
      NoneWithout(workers[..|workers| - 1], id);
    }
  }

  lemma {:induction false} WithoutAllKeeps(workers: seq<Worker>, ids: seq<nat>, counter: nat)
    requires WorkersOk(workers, counter)
    requires forall w, k :: w in workers && 0 <= k < |ids| && w.id == ids[k] ==> w.currentTask.None?
    ensures var r := WithoutAll(workers, ids);
      && Current(r) == Current(workers) && |r| + |ids| >= |workers|
      && (forall w :: w in r ==> w in workers)
      && WorkersOk(r, counter)
    decreases |ids|
  {
    hide Current, Without, WorkersOk, DistinctIds;
    if ids == [] {
    } else {
      var n := |ids| - 1;
      WithoutAllKeeps(workers, ids[..n], counter);
      var r := WithoutAll(workers, ids[..n]);
      OkIsDistinct(r, counter);
      WithoutKeeps(r, ids[n]);
      WithoutOk(r, ids[n], counter);
      WithoutMembers(r, ids[n]);
    }
  }

  lemma {:induction false} ExpiredAreIdle(cfg: Config, workers: seq<Worker>, now: int)
    ensures forall id :: id in ExpiredIds(cfg, workers, now) ==> exists i :: 0 <= i < |workers| && workers[i].id == id && IsIdle(workers[i])
  {
    if workers == [] {
    } else {
      var n := |workers| - 1;
      ExpiredAreIdle(cfg, workers[..n], now);
      forall id | id in ExpiredIds(cfg, workers, now)
        ensures exists i :: 0 <= i < |workers| && workers[i].id == id && IsIdle(workers[i])
      {
        if id in ExpiredIds(cfg, workers[..n], now) {
          var i :| 0 <= i < n && workers[..n][i].id == id && IsIdle(workers[..n][i]);
          assert workers[i].id == id;
        } else {
          assert workers[n].id == id;
        }
      }
    }
  }

  lemma {:induction false} ExpiredHoldNothing(cfg: Config, workers: seq<Worker>, now: int, counter: nat)
    requires WorkersOk(workers, counter)
    ensures forall w, id :: w in workers && id in ExpiredIds(cfg, workers, now) && w.id == id ==> w.currentTask.None?
  {
    ExpiredAreIdle(cfg, workers, now);
    forall w, id | w in workers && id in ExpiredIds(cfg, workers, now) && w.id == id
      ensures w.currentTask.None?
    {
      var i :| 0 <= i < |workers| && workers[i].id == id && IsIdle(workers[i]);
      var j :| 0 <= j < |workers| && workers[j] == w;
      assert i == j;
    }
  }

  lemma {:induction false} ScaleKeeps(cfg: Config, p: Pool, submitted: set<nat>, now: int)
    requires Inv(cfg, p, submitted)
    ensures var q := AutoScaled(cfg, p, now);
      && Inv(cfg, q, submitted) && Current(q.workers) == Current(p.workers) && q.queue == p.queue && q.started == p.started
      && q.idCounter >= p.idCounter
  {
    hide Held, Spent, SettledTasks, Sorted, Current, WorkersOk, ExpiredIds, WithoutAll, SpawnedMany;
    var n := if |p.queue| >= cfg.scaleUpThreshold && |p.workers| < cfg.maxWorkers
      then ToAdd(|p.queue|, cfg.scaleUpThreshold, cfg.maxWorkers - |p.workers|) else 0;
    SpawnNone(p, now);
    SpawnKeeps(cfg, p, submitted, n, now);
    SpawnCounts(p, n, now);
    var up := ScaledUp(cfg, p, now);
    assert up == SpawnedMany(p, n, now);
    if |p.workers| > cfg.minWorkers {
      var ids := ExpiredIds(cfg, up.workers, now);
      var gone := ids[..Min(|ids|, |p.workers| - cfg.minWorkers)];
      ExpiredHoldNothing(cfg, up.workers, now, up.idCounter);
      assert forall k :: 0 <= k < |gone| ==> gone[k] in ids;
      WithoutAllKeeps(up.workers, gone, up.idCounter);
    }
  }

  lemma SpawnNone(p: Pool, now: int)
    ensures SpawnedMany(p, 0, now) == p
  {
  }

  lemma {:induction false} SpawnCounts(p: Pool, n: nat, now: int)
    ensures SpawnedMany(p, n, now).idCounter >= p.idCounter
  {
    if n == 0 {
    } else {
      SpawnCounts(p, n - 1, now);
    }
  }

  lemma {:induction false} StealKeeps(cfg: Config, p: Pool, submitted: set<nat>)
    requires Inv(cfg, p, submitted)
    ensures Inv(cfg, Stolen(p), submitted) && Quiet(Stolen(p))
    ensures |Stolen(p).started| - |Current(Stolen(p).workers)| == |p.started| - |Current(p.workers)|
    ensures Stolen(p).idCounter == p.idCounter
    decreases |p.queue|
  {
    hide Inv, BestIdle, Current;
    if !Quiet(p) {
      DispatchKeeps(cfg, p, submitted);
      StealKeeps(cfg, Dispatched(p), submitted);
    }
  }

  // ---- Runs ----

  datatype Step =
    | Submit(priority: int)
    | Resolve(worker: nat, now: int)
    | Fail(worker: nat, now: int)
    | CheckHealth
    | Scale(now: int)

  predicate Enabled(p: Pool, s: Step) {
    match s
    case Resolve(i, _) => Working(p, i)
    case Fail(i, _) => Working(p, i)
    case _ => true
  }

  function Do(cfg: Config, p: Pool, s: Step): Pool
    requires Enabled(p, s)
  {
    match s
    case Submit(priority) => Submitted(p, priority)
    case Resolve(i, now) => FinishedOk(p, i, now)
    case Fail(i, now) => FinishedError(cfg, p, i, now)
    case CheckHealth => Stolen(p)
    case Scale(now) => AutoScaled(cfg, p, now)
  }

  /** The id that a step submits, if it does. */
  function NewIds(p: Pool, s: Step): set<nat> {
    if s.Submit? then {p.idCounter + 1} else {}
  }

  /** A run from one pool to another, and the ids submitted in it. */
  ghost predicate Run(cfg: Config, p: Pool, steps: seq<Step>, q: Pool, ids: set<nat>)
    decreases |steps|
  {
    if steps == [] then p == q && ids == {}
    else
      && Enabled(p, steps[0])
      && Run(cfg, Do(cfg, p, steps[0]), steps[1..], q, ids - NewIds(p, steps[0]))
      && NewIds(p, steps[0]) <= ids
  }

  predicate Finishes(s: Step) {
    s.Resolve? || s.Fail?
  }

  lemma {:induction false} StepKeeps(cfg: Config, p: Pool, s: Step, submitted: set<nat>)
    requires Inv(cfg, p, submitted) && Enabled(p, s)
    ensures var q := Do(cfg, p, s);
      && Inv(cfg, q, submitted + NewIds(p, s)) && submitted !! NewIds(p, s)
      && |q.started| - |Current(q.workers)| == |p.started| - |Current(p.workers)| + (if Finishes(s) then 1 else 0)
      && q.idCounter >= p.idCounter
  {
    hide Inv, Current, Submitted, FinishedOk, FinishedError, Stolen, AutoScaled;
    assert submitted + {} == submitted;
    match s
    case Submit(priority) => SubmitKeeps(cfg, p, submitted, priority);
    case Resolve(i, now) => ResolveKeeps(cfg, p, submitted, i, now);
    case Fail(i, now) => FailKeeps(cfg, p, submitted, i, now);
    case CheckHealth => StealKeeps(cfg, p, submitted);
    case Scale(now) => ScaleKeeps(cfg, p, submitted, now);
  }

  lemma {:induction false} SubmitKeeps(cfg: Config, p: Pool, submitted: set<nat>, priority: int)
    requires Inv(cfg, p, submitted)
    ensures var q := Submitted(p, priority); var id := p.idCounter + 1;
      && id !in submitted && Inv(cfg, q, submitted + {id}) && q.idCounter >= p.idCounter
      && |q.started| - |Current(q.workers)| == |p.started| - |Current(p.workers)|
  {
    hide Inv, Dispatched, Current, Enqueued;
    NewTaskKeeps(cfg, p, submitted, priority);
    var id := p.idCounter + 1;
    DispatchKeeps(cfg, p.(idCounter := id, queue := Enqueued(p.queue, Task(id, priority, 0))), submitted + {id});
  }

  lemma {:induction false} ResolveKeeps(cfg: Config, p: Pool, submitted: set<nat>, i: nat, now: int)
    requires Inv(cfg, p, submitted) && Working(p, i)
    ensures var q := FinishedOk(p, i, now);
      && Inv(cfg, q, submitted) && q.idCounter >= p.idCounter
      && |q.started| - |Current(q.workers)| == |p.started| - |Current(p.workers)| + 1
  {
    hide Inv, Dispatched, Current;
    var w := p.workers[i];
    var w' := w.(tasksCompleted := w.tasksCompleted + 1, status := Idle, currentTask := None, lastActiveAt := now);
    SettleKeeps(cfg, p, submitted, i, w', Resolved);
    assert p.workers[i := w.(tasksCompleted := w.tasksCompleted + 1)][i := w'] == p.workers[i := w'];
    DispatchKeeps(cfg, p.(workers := p.workers[i := w'], settled := p.settled + [(w.currentTask.value, Resolved)]), submitted);
  }

  lemma {:induction false} FailKeeps(cfg: Config, p: Pool, submitted: set<nat>, i: nat, now: int)
    requires Inv(cfg, p, submitted) && Working(p, i)
    ensures var q := FinishedError(cfg, p, i, now);
      && Inv(cfg, q, submitted) && q.idCounter >= p.idCounter
      && |q.started| - |Current(q.workers)| == |p.started| - |Current(p.workers)| + 1
  {
    hide Inv, Dispatched, Current, Enqueued;
    var w := p.workers[i];
    var t := w.currentTask.value;
    if t.retries < cfg.maxRetries {
      var w' := w.(status := Idle, currentTask := None, lastActiveAt := now);
      RetryKeeps(cfg, p, submitted, i, w');
      DispatchKeeps(cfg, p.(workers := p.workers[i := w'], queue := Enqueued(p.queue, t.(retries := t.retries + 1))), submitted);
    } else {
      var w' := w.(tasksFailed := w.tasksFailed + 1, status := Idle, currentTask := None, lastActiveAt := now);
      SettleKeeps(cfg, p, submitted, i, w', Rejected);
      assert p.workers[i := w.(tasksFailed := w.tasksFailed + 1)][i := w'] == p.workers[i := w'];
      DispatchKeeps(cfg, p.(workers := p.workers[i := w'], settled := p.settled + [(t, Rejected)]), submitted);
    }
  }

  function CountFinishes(steps: seq<Step>): nat {
    if steps == [] then 0 else (if Finishes(steps[0]) then 1 else 0) + CountFinishes(steps[1..])
  }

  function CountSubmits(steps: seq<Step>): nat {
    if steps == [] then 0 else (if steps[0].Submit? then 1 else 0) + CountSubmits(steps[1..])
  }

  lemma {:induction false} RunKeeps(cfg: Config, p: Pool, steps: seq<Step>, q: Pool, ids: set<nat>, submitted: set<nat>)
    requires Inv(cfg, p, submitted) && Run(cfg, p, steps, q, ids)
    ensures Inv(cfg, q, submitted + ids)
    ensures |q.started| - |Current(q.workers)| == |p.started| - |Current(p.workers)| + CountFinishes(steps)
    ensures |ids| == CountSubmits(steps)
    decreases |steps|
  {
    hide Inv, Do, Current, NewIds;
    if steps == [] {
      assert submitted + ids == submitted;
    } else {
      var s := steps[0];
      var new_ := NewIds(p, s);
      StepKeeps(cfg, p, s, submitted);
      RunKeeps(cfg, Do(cfg, p, s), steps[1..], q, ids - new_, submitted + new_);
      NewAmong(submitted, new_, ids);
      NewIdsSize(p, s);
    }
  }

  lemma {:induction false} NewAmong(submitted: set<nat>, new_: set<nat>, ids: set<nat>)
    requires new_ <= ids
    ensures submitted + new_ + (ids - new_) == submitted + ids && |ids - new_| == |ids| - |new_|
  {
    assert ids == new_ + (ids - new_);
  }

  lemma NewIdsSize(p: Pool, s: Step)
    ensures |NewIds(p, s)| == if s.Submit? then 1 else 0
  {
  }

  lemma {:induction false} StartInv(cfg: Config, now: int)
    ensures Inv(cfg, Started(cfg, now), {}) && Quiet(Started(cfg, now))
    ensures Started(cfg, now).started == multiset{} && Current(Started(cfg, now).workers) == []
  {
    hide SpawnedMany, Held, Spent, Sorted, WorkersOk, BestIdle, Current, SettledTasks, RetriesUpTo;
    EmptyCore(cfg);
    SpawnKeeps(cfg, EMPTY, {}, cfg.minWorkers, now);
  }

  lemma EmptyCore(cfg: Config)
    ensures Core(cfg, EMPTY, {}) && Current(EMPTY.workers) == []
  {
  }

  // ---- The theorems ----

  /** How often an id is in the queue, with a worker, or settled. */
  function Places(p: Pool, id: nat): nat {
    Held(p.queue)[id] + Held(Current(p.workers))[id] + Held(SettledTasks(p.settled))[id]
  }

  /** After any run of a started pool: each submitted task is in exactly one place (waiting, with one
      worker, or settled once), and its executor was called at most once more than it may be retried;
      a worker is busy exactly when it holds a task; and the number of workers is within its bounds. */
  lemma {:induction false} NoTaskIsLost(cfg: Config, now: int, steps: seq<Step>, p: Pool, ids: set<nat>)
    requires Run(cfg, Started(cfg, now), steps, p, ids)
    ensures forall id :: Places(p, id) == if id in ids then 1 else 0
    ensures forall id :: p.started[id] <= if id in ids then cfg.maxRetries + 1 else 0
    ensures WorkersOk(p.workers, p.idCounter) && SizeOk(cfg, |p.workers|) && Sorted(p.queue)
  {
    hide Started, Held, Current, SettledTasks, Spent, Sorted, Run;
    StartInv(cfg, now);
    RunKeeps(cfg, Started(cfg, now), steps, p, ids, {});
    assert {} + ids == ids;
    forall id
      ensures Places(p, id) == if id in ids then 1 else 0
      ensures p.started[id] <= if id in ids then cfg.maxRetries + 1 else 0
    {
      assert multiset(ids)[id] == if id in ids then 1 else 0;
      SpentBound(p.queue, 0, cfg.maxRetries, id);
      SpentBound(Current(p.workers), 1, cfg.maxRetries, id);
      SpentBound(SettledTasks(p.settled), 1, cfg.maxRetries, id);
      Share(Held(p.queue)[id], Held(Current(p.workers))[id], Held(SettledTasks(p.settled))[id], cfg.maxRetries + 1);
    }
  }

  lemma Share(a: nat, b: nat, c: nat, n: nat)
    ensures n * a + n * b + n * c == n * (a + b + c)
  {
  }

  /** `n` for each of `h`. */
  predicate Within(s: nat, n: nat, h: nat) {
    s <= n * h
  }

  lemma WithinPlus(s: nat, s': nat, n: nat, h: nat, h': nat)
    requires Within(s, n, h) && Within(s', n, h')
    ensures Within(s + s', n, h + h')
  {
  }

  lemma {:induction false} FirstWithin(t: Task, extra: nat, n: nat, id: nat)
    requires t.retries + extra <= n
    ensures Within(Times(t.id, t.retries + extra)[id], n, multiset{t.id}[id])
    ensures Within(|Times(t.id, t.retries + extra)|, n, 1)
  {
    TimesSize(t.id, t.retries + extra);
  }

  lemma {:induction false} SpentBound(ts: seq<Task>, extra: nat, n: nat, id: nat)
    requires RetriesUpTo(ts, n) && extra <= 1
    ensures Within(Spent(ts, extra)[id], n + 1, Held(ts)[id])
    ensures Within(|Spent(ts, extra)|, n + 1, |Held(ts)|)
  {
    hide *;
    if ts == [] {
      NoneWithin(n + 1, extra, id);
    } else {
      FirstRetries(ts, n);
      SpentBound(ts[1..], extra, n, id);
      FirstWithin(ts[0], extra, n + 1, id);
      var first, rest := Times(ts[0].id, ts[0].retries + extra), Spent(ts[1..], extra);
      WithinPlus(first[id], rest[id], n + 1, multiset{ts[0].id}[id], Held(ts[1..])[id]);
      WithinPlus(|first|, |rest|, n + 1, 1, |Held(ts[1..])|);
      FirstOfAll(ts, extra);
      CountOfSum(first, rest, id);
      CountOfSum(multiset{ts[0].id}, Held(ts[1..]), id);
    }
  }

  lemma CountOfSum(a: multiset<nat>, b: multiset<nat>, id: nat)
    ensures (a + b)[id] == a[id] + b[id] && |a + b| == |a| + |b|
  {
  }

  lemma FirstOfAll(ts: seq<Task>, extra: nat)
    requires ts != []
    ensures Spent(ts, extra) == Times(ts[0].id, ts[0].retries + extra) + Spent(ts[1..], extra)
    ensures Held(ts) == multiset{ts[0].id} + Held(ts[1..])
  {
  }

  lemma FirstRetries(ts: seq<Task>, n: nat)
    requires ts != [] && RetriesUpTo(ts, n)
    ensures ts[0].retries <= n && RetriesUpTo(ts[1..], n)
  {
  }

  lemma NoneWithin(n: nat, extra: nat, id: nat)
    ensures Within(Spent([], extra)[id], n, Held([])[id]) && Within(|Spent([], extra)|, n, |Held([])|)
  {
  }

  /** The pool works only so much: all runs together are at most one more than the retries allowed for
      each submitted task, whatever the interleaving. */
  lemma {:induction false} WorkIsBounded(cfg: Config, now: int, steps: seq<Step>, p: Pool, ids: set<nat>)
    requires Run(cfg, Started(cfg, now), steps, p, ids)
    ensures CountFinishes(steps) <= (cfg.maxRetries + 1) * CountSubmits(steps)
  {
    hide Started, Held, Current, SettledTasks, Spent, Sorted, Run, CountFinishes, CountSubmits;
    StartInv(cfg, now);
    RunKeeps(cfg, Started(cfg, now), steps, p, ids, {});
    assert {} + ids == ids;
    SpentBound(p.queue, 0, cfg.maxRetries, 0);
    SpentBound(Current(p.workers), 1, cfg.maxRetries, 0);
    SpentBound(SettledTasks(p.settled), 1, cfg.maxRetries, 0);
    Share(|Held(p.queue)|, |Held(Current(p.workers))|, |Held(SettledTasks(p.settled))|, cfg.maxRetries + 1);
    assert |multiset(ids)| == |ids|;
  }

  lemma {:induction false} TimesSize(id: nat, n: nat)
    ensures |Times(id, n)| == n
  {
    if n == 0 {
      assert Times(id, n) == multiset{};
    } else {
      TimesSize(id, n - 1);
      TimesMore(id, n - 1);
    }
  }

  // ---- Waiting ----

  predicate AtMostOneIdle(workers: seq<Worker>) {
    forall i, j :: 0 <= i < j < |workers| ==> !IsIdle(workers[i]) || !IsIdle(workers[j])
  }

  lemma {:induction false} DispatchQuiets(p: Pool)
    requires |p.queue| <= 1 || AtMostOneIdle(p.workers)
    ensures Quiet(Dispatched(p))
  {
    hide BestIdle;
    BestIdleIsBest(p.workers);
    BestIdleIsBest(Dispatched(p).workers);
  }

  /** How many workers scaling adds. */
  function NewWorkers(cfg: Config, p: Pool): nat {
    if |p.queue| >= cfg.scaleUpThreshold && |p.workers| < cfg.maxWorkers
    then ToAdd(|p.queue|, cfg.scaleUpThreshold, cfg.maxWorkers - |p.workers|) else 0
  }

  /** Does the step add workers while tasks wait, and leave one of them? With a negative timeout the new
      workers expire at once, and scaling down may remove all of them. */
  predicate LeavesIdle(cfg: Config, p: Pool, s: Step) {
    && s.Scale? && p.queue != [] && NewWorkers(cfg, p) > 0
    && (cfg.idleTimeoutMs >= 0 || NewWorkers(cfg, p) > |p.workers| - cfg.minWorkers)
  }

  /** After a health check no task waits while a worker is idle, and just the steps that leave new workers
      beside waiting tasks do not keep it so. */
  lemma {:induction false} QuietIsKept(cfg: Config, p: Pool, s: Step, submitted: set<nat>)
    requires Inv(cfg, p, submitted) && Enabled(p, s)
    ensures s.CheckHealth? ==> Quiet(Do(cfg, p, s))
    ensures Quiet(p) ==> (Quiet(Do(cfg, p, s)) <==> !LeavesIdle(cfg, p, s))
  {
    hide BestIdle, Books, RetriesOk, Sorted;
    BestIdleIsBest(p.workers);
    match s
    case Submit(priority) =>
      var id := p.idCounter + 1;
      if Quiet(p) {
        DispatchQuiets(p.(idCounter := id, queue := Enqueued(p.queue, Task(id, priority, 0))));
      }
    case Resolve(i, now) => if Quiet(p) { FinishQuiets(cfg, p, s); }
    case Fail(i, now) => if Quiet(p) { FinishQuiets(cfg, p, s); }
    case CheckHealth => StealKeeps(cfg, p, submitted);
    case Scale(now) => if Quiet(p) { ScaleQuiets(cfg, p, now); }
  }

  /** A pool of one worker, or at most two, that is given two tasks: one is running and one waits. Scaling
      then adds a worker and leaves it idle beside the waiting task. */
  lemma {:induction false} ScalingLeavesTaskWaiting(now: int)
    ensures var cfg := Config(1, 2, 1000, 0, 1);
      var p := Do(cfg, Do(cfg, Started(cfg, now), Submit(0)), Submit(0));
      Quiet(p) && !Quiet(Do(cfg, p, Scale(now)))
  {
    var cfg := Config(1, 2, 1000, 0, 1);
    var w := Worker(1, Idle, 0, 0, None, now);
    var busy := w.(status := Busy, currentTask := Some(Task(2, 0, 0)));
    OneStarted(cfg, now, w);
    FirstSubmitted(w);
    SecondSubmitted(busy, multiset{2});
    var p := Pool([Task(3, 0, 0)], [busy], 3, [], multiset{2});
    assert NewWorkers(cfg, p) == 1;
    hide Started, Submitted, AutoScaled, Quiet, NewWorkers;
    QuietByWorkers(p);
    ScaleQuiets(cfg, p, now);
  }

  lemma OneStarted(cfg: Config, now: int, w: Worker)
    requires cfg.minWorkers == 1 && w == Worker(1, Idle, 0, 0, None, now)
    ensures Started(cfg, now) == Pool([], [w], 1, [], multiset{})
  {
    SpawnOneMore(EMPTY, 1, now);
    SpawnNone(EMPTY, now);
  }

  lemma {:induction false} FirstSubmitted(w: Worker)
    requires IsIdle(w)
    ensures Submitted(Pool([], [w], 1, [], multiset{}), 0)
         == Pool([], [w.(status := Busy, currentTask := Some(Task(2, 0, 0)))], 2, [], multiset{2})
  {
    assert [w][..0] == [];
    assert Enqueued([], Task(2, 0, 0)) == [Task(2, 0, 0)];
  }

  lemma {:induction false} SecondSubmitted(w: Worker, started: multiset<nat>)
    requires !IsIdle(w)
    ensures Submitted(Pool([], [w], 2, [], started), 0) == Pool([Task(3, 0, 0)], [w], 3, [], started)
  {
    assert [w][..0] == [];
    assert Enqueued([], Task(3, 0, 0)) == [Task(3, 0, 0)];
  }

  lemma {:induction false} FinishQuiets(cfg: Config, p: Pool, s: Step)
    requires Finishes(s) && Enabled(p, s) && Quiet(p)
    ensures Quiet(Do(cfg, p, s))
  {
    hide BestIdle, Position, Dispatched;
    BestIdleIsBest(p.workers);
    var i, now := s.worker, s.now;
    var w := p.workers[i];
    var t := w.currentTask.value;
    if s.Resolve? {
      var w' := w.(tasksCompleted := w.tasksCompleted + 1, status := Idle, currentTask := None, lastActiveAt := now);
      assert p.workers[i := w.(tasksCompleted := w.tasksCompleted + 1)][i := w'] == p.workers[i := w'];
      DispatchQuiets(p.(workers := p.workers[i := w'], settled := p.settled + [(t, Resolved)]));
    } else if t.retries < cfg.maxRetries {
      var w' := w.(status := Idle, currentTask := None, lastActiveAt := now);
      DispatchQuiets(p.(workers := p.workers[i := w'], queue := Enqueued(p.queue, t.(retries := t.retries + 1))));
    } else {
      var w' := w.(tasksFailed := w.tasksFailed + 1, status := Idle, currentTask := None, lastActiveAt := now);
      assert p.workers[i := w.(tasksFailed := w.tasksFailed + 1)][i := w'] == p.workers[i := w'];
      DispatchQuiets(p.(workers := p.workers[i := w'], settled := p.settled + [(t, Rejected)]));
    }
  }

  /** Numbers of new workers, oldest first. */
  function NumbersAfter(counter: nat, n: nat): (r: seq<nat>)
    ensures |r| == n && forall i :: 0 <= i < n ==> r[i] == counter + 1 + i
  {
    if n == 0 then [] else NumbersAfter(counter, n - 1) + [counter + n]
  }

  /** New workers come last and are idle. */
  lemma {:induction false} SpawnedAreLast(p: Pool, n: nat, now: int)
    ensures var up := SpawnedMany(p, n, now);
      && |up.workers| == |p.workers| + n
      && (n > 0 ==> IsIdle(up.workers[|up.workers| - 1]) && up.workers[|up.workers| - 1].id == p.idCounter + n)
      && (forall w :: w in up.workers ==> (w in p.workers || w.id in NumbersAfter(p.idCounter, n)))
  {
    hide SpawnedMany;
    if n == 0 {
      SpawnNone(p, now);
    } else {
      SpawnOneMore(p, n, now);
      SpawnedAreLast(p, n - 1, now);
      SpawnedQueue(p, n - 1, now);
      assert NumbersAfter(p.idCounter, n)[n - 1] == p.idCounter + n;
    }
  }

  /** With a negative timeout the new workers have expired, and nothing else has. */
  lemma {:induction false} SpawnedExpire(cfg: Config, p: Pool, n: nat, now: int)
    requires forall w :: w in p.workers ==> !IsIdle(w)
    ensures ExpiredIds(cfg, SpawnedMany(p, n, now).workers, now)
         == if cfg.idleTimeoutMs < 0 then NumbersAfter(p.idCounter, n) else []
  {
    hide SpawnedMany, ExpiredIds;
    if n == 0 {
      SpawnNone(p, now);
      NoneExpired(cfg, p.workers, now);
    } else {
      SpawnOneMore(p, n, now);
      SpawnedExpire(cfg, p, n - 1, now);
      SpawnedQueue(p, n - 1, now);
      ExpiredSnoc(cfg, SpawnedMany(p, n - 1, now).workers, Worker(p.idCounter + n, Idle, 0, 0, None, now), now);
    }
  }

  lemma {:induction false} ExpiredSnoc(cfg: Config, workers: seq<Worker>, w: Worker, now: int)
    ensures ExpiredIds(cfg, workers + [w], now) == ExpiredIds(cfg, workers, now) + if IsExpired(cfg, w, now) then [w.id] else []
  {
    assert (workers + [w])[..|workers|] == workers;
  }

  lemma SpawnOneMore(p: Pool, n: nat, now: int)
    requires n > 0
    ensures SpawnedMany(p, n, now) == Spawned(SpawnedMany(p, n - 1, now), now)
  {
  }

  lemma {:induction false} NoneExpired(cfg: Config, workers: seq<Worker>, now: int)
    requires forall w :: w in workers ==> !IsIdle(w)
    ensures ExpiredIds(cfg, workers, now) == []
  {
    if workers == [] {
    } else {
      NoneExpired(cfg, workers[..|workers| - 1], now);
    }
  }

  lemma {:induction false} WithoutAllMembers(workers: seq<Worker>, ids: seq<nat>)
    ensures forall w :: w in WithoutAll(workers, ids) <==> w in workers && w.id !in ids
    decreases |ids|
  {
    if ids == [] {
    } else {
      var n := |ids| - 1;
      WithoutAllMembers(workers, ids[..n]);
      WithoutMembers(WithoutAll(workers, ids[..n]), ids[n]);
      assert ids == ids[..n] + [ids[n]];
    }
  }

  lemma {:induction false} QuietByWorkers(p: Pool)
    requires p.queue != []
    ensures Quiet(p) <==> forall w :: w in p.workers ==> !IsIdle(w)
  {
    hide BestIdle;
    BestIdleIsBest(p.workers);
    if exists w :: w in p.workers && IsIdle(w) {
      var w :| w in p.workers && IsIdle(w);
      var j :| 0 <= j < |p.workers| && p.workers[j] == w;
    }
  }

  lemma {:induction false} ScaledUpWorkers(cfg: Config, p: Pool, now: int)
    ensures ScaledUp(cfg, p, now) == SpawnedMany(p, NewWorkers(cfg, p), now)
  {
    SpawnNone(p, now);
  }

  lemma {:induction false} ScaleQuiets(cfg: Config, p: Pool, now: int)
    requires Quiet(p)
    ensures Quiet(AutoScaled(cfg, p, now)) <==> !LeavesIdle(cfg, p, Scale(now))
  {
    hide WithoutAll, ExpiredIds, SpawnedMany, NewWorkers, ScaledUp, Quiet;
    ScaledUpWorkers(cfg, p, now);
    SpawnedQueue(p, NewWorkers(cfg, p), now);
    if p.queue == [] {
      NothingWaits(AutoScaled(cfg, p, now));
    } else {
      QuietByWorkers(p);
      QuietByWorkers(AutoScaled(cfg, p, now));
      ScaledIdle(cfg, p, now);
    }
  }

  lemma {:induction false} SpawnedQueue(p: Pool, n: nat, now: int)
    ensures SpawnedMany(p, n, now).queue == p.queue && SpawnedMany(p, n, now).idCounter == p.idCounter + n
    ensures |SpawnedMany(p, n, now).workers| == |p.workers| + n
  {
    if n == 0 {
    } else {
      SpawnedQueue(p, n - 1, now);
    }
  }

  lemma NothingWaits(p: Pool)
    requires p.queue == []
    ensures Quiet(p)
  {
  }

  lemma {:induction false} ScaledIdle(cfg: Config, p: Pool, now: int)
    requires p.queue != [] && forall w :: w in p.workers ==> !IsIdle(w)
    ensures (exists w :: w in AutoScaled(cfg, p, now).workers && IsIdle(w)) <==> LeavesIdle(cfg, p, Scale(now))
  {
    hide WithoutAll, ExpiredIds, SpawnedMany, NewWorkers, ScaledUp;
    var n := NewWorkers(cfg, p);
    ScaledUpWorkers(cfg, p, now);
    SpawnedAreLast(p, n, now);
    SpawnedExpire(cfg, p, n, now);
    var up, q := ScaledUp(cfg, p, now), AutoScaled(cfg, p, now);
    var ids := ExpiredIds(cfg, up.workers, now);
    var gone := if |p.workers| > cfg.minWorkers then ids[..Min(|ids|, |p.workers| - cfg.minWorkers)] else [];
    WithoutAllMembers(up.workers, gone);
    WithoutNone(up.workers);
    assert q.workers == WithoutAll(up.workers, gone);
    if LeavesIdle(cfg, p, Scale(now)) {
      var last := up.workers[|up.workers| - 1];
      assert last in up.workers && last.id !in gone;
      assert last in q.workers && IsIdle(last);
    } else {
      assert n > 0 ==> gone == ids;
      assert NumbersAfter(p.idCounter, 0) == [];
    }
  }

  lemma WithoutNone(workers: seq<Worker>)
    ensures WithoutAll(workers, []) == workers
  {
  }
}
