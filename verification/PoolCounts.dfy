/** What the pool's steps do to its workers: their counters, and how many come and go by scaling. */
module PoolCounts {
  import opened Options
  import opened WorkerPool
  import opened PoolLaws

  // ---- Counters ----

  /** The worker's counters and times; what it is doing may differ. */
  predicate SameCounts(v: Worker, w: Worker) {
    v.id == w.id && v.tasksCompleted == w.tasksCompleted && v.tasksFailed == w.tasksFailed && v.lastActiveAt == w.lastActiveAt
  }

  ghost predicate OthersKeepCounts(p: Pool, q: Pool, i: int) {
    |q.workers| == |p.workers| && forall j :: 0 <= j < |p.workers| && j != i ==> SameCounts(q.workers[j], p.workers[j])
  }

  lemma {:induction false} DispatchKeepsCounts(p: Pool)
    ensures OthersKeepCounts(p, Dispatched(p), -1) && Dispatched(p).settled == p.settled
  {
    hide BestIdle;
  }

  /** A task that resolves counts once for its worker, and is settled. */
  lemma {:induction false} ResolvedCounts(p: Pool, i: nat, now: int)
    requires Working(p, i)
    ensures var q := FinishedOk(p, i, now);
      && OthersKeepCounts(p, q, i)
      && SameCounts(q.workers[i], p.workers[i].(tasksCompleted := p.workers[i].tasksCompleted + 1, lastActiveAt := now))
      && q.settled == p.settled + [(p.workers[i].currentTask.value, Resolved)]
  {
    hide Dispatched;
    var w := p.workers[i].(tasksCompleted := p.workers[i].tasksCompleted + 1, status := Idle, currentTask := None, lastActiveAt := now);
    DispatchKeepsCounts(p.(workers := p.workers[i := w], settled := p.settled + [(p.workers[i].currentTask.value, Resolved)]));
    assert p.workers[i := p.workers[i].(tasksCompleted := p.workers[i].tasksCompleted + 1)][i := w] == p.workers[i := w];
  }

  /** A task that fails counts against its worker, and is settled, just when it has no retry left. */
  lemma {:induction false} FailedCounts(cfg: Config, p: Pool, i: nat, now: int)
    requires Working(p, i)
    ensures var q, t := FinishedError(cfg, p, i, now), p.workers[i].currentTask.value;
      && OthersKeepCounts(p, q, i)
      && (if t.retries < cfg.maxRetries then
            SameCounts(q.workers[i], p.workers[i].(lastActiveAt := now)) && q.settled == p.settled
          else
            && SameCounts(q.workers[i], p.workers[i].(tasksFailed := p.workers[i].tasksFailed + 1, lastActiveAt := now))
            && q.settled == p.settled + [(t, Rejected)])
  {
    hide Dispatched, Enqueued;
    var w, t := p.workers[i], p.workers[i].currentTask.value;
    var idle := w.(status := Idle, currentTask := None, lastActiveAt := now);
    if t.retries < cfg.maxRetries {
      DispatchKeepsCounts(p.(queue := Enqueued(p.queue, t.(retries := t.retries + 1)), workers := p.workers[i := idle]));
    } else {
      var failed := idle.(tasksFailed := w.tasksFailed + 1);
      assert p.workers[i := w.(tasksFailed := w.tasksFailed + 1)][i := failed] == p.workers[i := failed];
      DispatchKeepsCounts(p.(workers := p.workers[i := failed], settled := p.settled + [(t, Rejected)]));
    }
  }

  // ---- Scaling up ----

  lemma {:induction false} SpawnedAre(p: Pool, n: nat, now: int)
    ensures var q := SpawnedMany(p, n, now);
      && |q.workers| == |p.workers| + n && q.workers[..|p.workers|] == p.workers
      && (forall k :: |p.workers| <= k < |q.workers| ==> q.workers[k] == Worker(p.idCounter + 1 + k - |p.workers|, Idle, 0, 0, None, now))
      && q == p.(workers := q.workers, idCounter := p.idCounter + n)
  {
    if n == 0 {
    } else {
      SpawnedAre(p, n - 1, now);
      var q := SpawnedMany(p, n - 1, now);
      assert (q.workers + [Worker(q.idCounter + 1, Idle, 0, 0, None, now)])[..|p.workers|] == q.workers[..|p.workers|];
    }
  }

  /** The least number of workers by which there is one for each `threshold` tasks, if there is room. */
  ghost predicate EnoughFor(n: nat, tasks: nat, threshold: int, room: nat) {
    && n <= room
    && (n > 0 ==> (n - 1) * threshold < tasks)
    && (n < room ==> tasks <= n * threshold)
  }

  lemma {:induction false} ToAddIsEnough(tasks: nat, threshold: int, room: nat)
    requires threshold > 0
    ensures EnoughFor(ToAdd(tasks, threshold, room), tasks, threshold, room)
  {
    var up := (tasks + threshold - 1) / threshold;
    var n := ToAdd(tasks, threshold, room);
    Quotient(tasks + threshold - 1, threshold);
    if n > 0 {
      Ordered(n - 1, up - 1, threshold);
    }
    assert (up - 1) * threshold == up * threshold - threshold;
  }

  lemma Quotient(a: nat, b: nat)
    requires b > 0
    ensures (a / b) * b <= a < (a / b) * b + b
  {
  }

  lemma Ordered(a: int, b: int, c: nat)
    requires a <= b
    ensures a * c <= b * c
  {
  }

  /** Scaling up, when enough tasks wait, adds that many new idle workers; a threshold of nothing fills
      the pool, as long as a task waits. */
  lemma {:induction false} ScaleUpAdds(cfg: Config, p: Pool, now: int)
    ensures var q := ScaledUp(cfg, p, now);
      && |p.workers| <= |q.workers| && q.workers[..|p.workers|] == p.workers
      && var n, room := |q.workers| - |p.workers|, cfg.maxWorkers - |p.workers|;
      && q == p.(workers := q.workers, idCounter := p.idCounter + n)
      && (forall k :: |p.workers| <= k < |q.workers| ==> q.workers[k] == Worker(p.idCounter + 1 + k - |p.workers|, Idle, 0, 0, None, now))
      && (if |p.queue| < cfg.scaleUpThreshold || room <= 0 then n == 0
          else if cfg.scaleUpThreshold > 0 then EnoughFor(n, |p.queue|, cfg.scaleUpThreshold, room)
          else n == if cfg.scaleUpThreshold == 0 && |p.queue| > 0 then room else 0)
  {
    hide SpawnedMany, EnoughFor;
    if |p.queue| >= cfg.scaleUpThreshold && |p.workers| < cfg.maxWorkers {
      var n := ToAdd(|p.queue|, cfg.scaleUpThreshold, cfg.maxWorkers - |p.workers|);
      SpawnedAre(p, n, now);
      if cfg.scaleUpThreshold > 0 {
        ToAddIsEnough(|p.queue|, cfg.scaleUpThreshold, cfg.maxWorkers - |p.workers|);
      }
    }
  }

  // ---- Scaling down ----

  predicate Overdue(cfg: Config, w: Worker, now: int) {
    w.status == Idle && w.lastActiveAt + cfg.idleTimeoutMs < now
  }

  function CountOverdue(cfg: Config, workers: seq<Worker>, now: int): nat {
    if workers == [] then 0
    else CountOverdue(cfg, workers[..|workers| - 1], now) + if Overdue(cfg, workers[|workers| - 1], now) then 1 else 0
  }

  /** The workers without the first `k` that are overdue. */
  function WithoutOverdue(cfg: Config, workers: seq<Worker>, k: nat, now: int): seq<Worker> {
    if workers == [] then []
    else
      var front, last := workers[..|workers| - 1], workers[|workers| - 1];
      WithoutOverdue(cfg, front, k, now) + if Overdue(cfg, last, now) && CountOverdue(cfg, front, now) < k then [] else [last]
  }

  lemma {:induction false} ExpiredAreOverdue(cfg: Config, workers: seq<Worker>, now: int)
    ensures var ids := ExpiredIds(cfg, workers, now);
      |ids| == CountOverdue(cfg, workers, now) && forall id :: id in ids ==> exists w :: w in workers && w.id == id
  {
    if workers == [] {
    } else {
      var n := |workers| - 1;
      ExpiredAreOverdue(cfg, workers[..n], now);
      assert workers == workers[..n] + [workers[n]];
    }
  }

  lemma {:induction false} WithoutAllSnoc(workers: seq<Worker>, ids: seq<nat>)
    requires workers != []
    ensures var n := |workers| - 1;
      WithoutAll(workers, ids) == WithoutAll(workers[..n], ids) + if workers[n].id in ids then [] else [workers[n]]
    decreases |ids|
  {
    var n := |workers| - 1;
    if ids == [] {
    } else {
      var m := |ids| - 1;
      WithoutAllSnoc(workers, ids[..m]);
      assert ids == ids[..m] + [ids[m]];
      var front := WithoutAll(workers[..n], ids[..m]);
      if workers[n].id !in ids[..m] {
        assert (front + [workers[n]])[..|front|] == front;
        WithoutLast(front + [workers[n]], ids[m]);
      } else {
        assert front + [] == front;
      }
    }
  }

  lemma {:induction false} GoneOverdue(cfg: Config, workers: seq<Worker>, k: nat, now: int)
    requires DistinctIds(workers)
    ensures var ids := ExpiredIds(cfg, workers, now);
      WithoutAll(workers, ids[..Min(|ids|, k)]) == WithoutOverdue(cfg, workers, k, now)
  {
    hide DistinctIds, WithoutAll;
    var ids := ExpiredIds(cfg, workers, now);
    var gone := ids[..Min(|ids|, k)];
    if workers == [] {
      NobodyWithout(gone);
    } else {
      var n := |workers| - 1;
      var front, last := workers[..n], workers[n];
      DistinctInit(workers);
      GoneOverdue(cfg, front, k, now);
      ExpiredAreOverdue(cfg, front, now);
      var before := ExpiredIds(cfg, front, now);
      assert last.id !in before;
      WithoutAllSnoc(workers, gone);
      if Overdue(cfg, last, now) && |before| < k {
        assert gone == before + [last.id];
        assert before[..Min(|before|, k)] == before;
        WithoutOne(front, before, last.id);
      } else {
        assert gone == before[..Min(|before|, k)];
      }
    }
  }

  lemma NobodyWithout(ids: seq<nat>)
    ensures WithoutAll([], ids) == []
  {
  }

  /** Removing an id that nobody has. */
  lemma {:induction false} WithoutOne(workers: seq<Worker>, ids: seq<nat>, id: nat)
    requires forall w :: w in workers ==> w.id != id
    ensures WithoutAll(workers, ids + [id]) == WithoutAll(workers, ids)
  {
    assert (ids + [id])[..|ids|] == ids;
    WithoutAllMembers(workers, ids);
    NoneWithout(WithoutAll(workers, ids), id);
  }

  /** Scaling removes, of the workers there are after scaling up, the first that are idle and overdue:
      at most as many as there were above the minimum before. */
  lemma {:induction false} ScaleDownRemoves(cfg: Config, p: Pool, now: int)
    requires DistinctIds(ScaledUp(cfg, p, now).workers)
    ensures var up := ScaledUp(cfg, p, now);
      AutoScaled(cfg, p, now)
        == up.(workers := WithoutOverdue(cfg, up.workers, if |p.workers| > cfg.minWorkers then |p.workers| - cfg.minWorkers else 0, now))
  {
    hide ScaledUp, WithoutAll, ExpiredIds, WithoutOverdue, DistinctIds;
    var up := ScaledUp(cfg, p, now);
    if |p.workers| > cfg.minWorkers {
      GoneOverdue(cfg, up.workers, |p.workers| - cfg.minWorkers, now);
    } else {
      NoneOverdue(cfg, up.workers, now);
    }
  }

  lemma {:induction false} NoneOverdue(cfg: Config, workers: seq<Worker>, now: int)
    ensures WithoutOverdue(cfg, workers, 0, now) == workers
  {
    if workers == [] {
    } else {
      NoneOverdue(cfg, workers[..|workers| - 1], now);
    }
  }
}
