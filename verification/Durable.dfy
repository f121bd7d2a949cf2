/** Durable execution: the checkpoint store, the executor that saves to it after every step, and
    the specification of one attempt at a workflow. */
module Durable {
  import opened Options
  import opened Graphs
  import opened Workflows
  import opened Kahn

  // ---- The order of execution ----

  /** The step that the step map holds for an id: of several steps with one id, the last. */
  function StepWithId(steps: seq<Step>, id: string): (s: Step)
    requires id in NodeIds(steps)
    ensures s in steps && s.id == id
  {
    var last := steps[|steps| - 1];
    if last.id == id then last
    else
      assert steps == steps[..|steps| - 1] + [last];
      StepWithId(steps[..|steps| - 1], id)
  }

  ghost function StepsWithIds(steps: seq<Step>, ids: seq<string>): (r: seq<Step>)
    requires forall id :: id in ids ==> id in NodeIds(steps)
    ensures |r| == |ids|
  {
    if ids == [] then []
    else StepsWithIds(steps, ids[..|ids| - 1]) + [StepWithId(steps, ids[|ids| - 1])]
  }

  lemma {:induction false} StepsWithIdsAt(steps: seq<Step>, ids: seq<string>, k: nat)
    requires forall id :: id in ids ==> id in NodeIds(steps)
    requires k < |ids|
    ensures StepsWithIds(steps, ids)[k] == StepWithId(steps, ids[k])
  {
    if k < |ids| - 1 {
      StepsWithIdsAt(steps, ids[..|ids| - 1], k);
    }
  }

  ghost function OrderIds(steps: seq<Step>): (ids: seq<string>)
    ensures forall id :: id in ids ==> id in NodeIds(steps)
  {
    NodeIdsNoDup(steps);
    EdgeTargetsAreNodes(steps);
    OrderFinal(NodeIds(steps), Edges(steps));
    Order(NodeIds(steps), Edges(steps))
  }

  /** The steps in the order in which the executor takes them. */
  ghost function TopoOrder(steps: seq<Step>): seq<Step> {
    StepsWithIds(steps, OrderIds(steps))
  }

  ghost function Ids(steps: seq<Step>): set<string> {
    set s | s in steps :: s.id
  }

  /** Every dependency of a step of the order stands earlier in the order, whatever the workflow. */
  lemma {:induction false} DependenciesPrecede(steps: seq<Step>, k: nat, d: string)
    requires k < |TopoOrder(steps)| && d in TopoOrder(steps)[k].Deps()
    ensures d in Ids(TopoOrder(steps)[..k])
  {
    hide Edges, Order, NodeIds;
    var ids := OrderIds(steps);
    StepsWithIdsAt(steps, ids, k);
    var s := TopoOrder(steps)[k];
    assert Edge(d, s.id) in Edges(steps) by {
      assert s in steps;
      EdgesAreDependencies(steps, s.id, d);
    }
    OrderIdsForward(steps);
    assert Edge(d, s.id).dst == ids[k];
    var j :| 0 <= j < k && ids[j] == d;
    StepsWithIdsAt(steps, ids, j);
    assert TopoOrder(steps)[..k][j].id == d;
  }

  lemma {:induction false} OrderIdsForward(steps: seq<Step>)
    ensures NoDup(OrderIds(steps)) && Forward(Edges(steps), OrderIds(steps))
  {
    hide Edges;
    NodeIdsNoDup(steps);
    EdgeTargetsAreNodes(steps);
    OrderFinal(NodeIds(steps), Edges(steps));
  }

  ghost predicate Executable(steps: seq<Step>) {
    DistinctIds(steps) && DepsExist(steps) && !Cyclic(Edges(steps))
  }

  /** The order is free of repetition, and it is a permutation of the steps exactly when ids are
      distinct, dependencies exist and there is no cycle. */
  lemma {:induction false} TopoOrderIsExact(steps: seq<Step>)
    ensures NoDup(TopoOrder(steps))
    ensures multiset(TopoOrder(steps)) == multiset(steps) <==> Executable(steps)
    ensures |TopoOrder(steps)| == |steps| <==> Executable(steps)
  {
    hide Edges, Cyclic;
    var ids := OrderIds(steps);
    NodeIdsNoDup(steps);
    EdgeTargetsAreNodes(steps);
    OrderFinal(NodeIds(steps), Edges(steps));
    OrderIsExact(NodeIds(steps), Edges(steps));
    DistinctIdsByCount(steps);
    assert |TopoOrder(steps)| == |steps| <==> Executable(steps);
    TopoOrderNoDup(steps);
    if |multiset(TopoOrder(steps))| == |multiset(steps)| {
      TopoOrderCovers(steps);
    }
  }

  lemma {:induction false} TopoOrderNoDup(steps: seq<Step>)
    ensures NoDup(TopoOrder(steps))
  {
    hide Edges;
    var ids := OrderIds(steps);
    OrderIdsForward(steps);
    forall i, j | 0 <= i < j < |ids|
      ensures TopoOrder(steps)[i] != TopoOrder(steps)[j]
    {
      StepsWithIdsAt(steps, ids, i);
      StepsWithIdsAt(steps, ids, j);
    }
  }

  lemma {:induction false} TopoOrderCovers(steps: seq<Step>)
    requires |TopoOrder(steps)| == |steps|
    ensures multiset(TopoOrder(steps)) == multiset(steps)
  {
    hide Edges;
    var r := TopoOrder(steps);
    var ids := OrderIds(steps);
    forall s | s in r
      ensures s in steps
    {
      var k :| 0 <= k < |r| && r[k] == s;
      StepsWithIdsAt(steps, ids, k);
    }
    TopoOrderNoDup(steps);
    NoDupCovers(r, steps);
  }

  /** Distinct elements drawn from a sequence of the same length are a permutation of it. */
  lemma {:induction false} NoDupCovers<T>(r: seq<T>, s: seq<T>)
    requires NoDup(r) && |r| == |s| && forall x :: x in r ==> x in s
    ensures multiset(r) == multiset(s)
  {
    if r == [] {
    } else {
      var x := r[0];
      assert x in r;
      var k :| 0 <= k < |s| && s[k] == x;
      var s' := s[..k] + s[k + 1..];
      assert s == s[..k] + [x] + s[k + 1..];
      assert r == [x] + r[1..];
      forall y | y in r[1..]
        ensures y in s'
      {
        var i :| 1 <= i < |r| && r[i] == y;
        assert y != x && y in s;
      }
      NoDupCovers(r[1..], s');
    }
  }

  // ---- Checkpoints ----

  datatype Checkpoint = Checkpoint(workflowId: string, stepIndex: int, state: Record, savedAt: int)

  /** The two checkpoints have the same primary key. */
  predicate SameKey(c: Checkpoint, d: Checkpoint) {
    c.workflowId == d.workflowId && c.stepIndex == d.stepIndex && c.savedAt == d.savedAt
  }

  function Without(rows: seq<Checkpoint>, c: Checkpoint): (r: seq<Checkpoint>)
    ensures forall d :: d in r <==> d in rows && !SameKey(c, d)
  {
    if rows == [] then []
    else
      assert rows == [rows[0]] + rows[1..];
      (if SameKey(c, rows[0]) then [] else [rows[0]]) + Without(rows[1..], c)
  }

  /** Inserting a row replaces the one with the same primary key. */
  function Inserted(rows: seq<Checkpoint>, c: Checkpoint): (r: seq<Checkpoint>)
    ensures forall d :: d in r <==> d == c || (d in rows && !SameKey(c, d))
  {
    Without(rows, c) + [c]
  }

  function InsertedAll(rows: seq<Checkpoint>, cs: seq<Checkpoint>): seq<Checkpoint>
    decreases |cs|
  {
    if cs == [] then rows else InsertedAll(Inserted(rows, cs[0]), cs[1..])
  }

  lemma {:induction false} InsertedAllConcat(rows: seq<Checkpoint>, cs: seq<Checkpoint>, ds: seq<Checkpoint>)
    ensures InsertedAll(rows, cs + ds) == InsertedAll(InsertedAll(rows, cs), ds)
    decreases |cs|
  {
    if cs == [] {
      assert cs + ds == ds;
    } else {
      assert (cs + ds)[1..] == cs[1..] + ds;
      InsertedAllConcat(Inserted(rows, cs[0]), cs[1..], ds);
    }
  }

  lemma InsertedNone(rows: seq<Checkpoint>)
    ensures InsertedAll(rows, []) == rows
  {
  }

  /** `c` is a row of the workflow with the highest step index; of several the query may return any. */
  ghost predicate IsLatest(rows: seq<Checkpoint>, workflowId: string, c: Checkpoint) {
    && c in rows && c.workflowId == workflowId
    && forall d :: d in rows && d.workflowId == workflowId ==> d.stepIndex <= c.stepIndex
  }

  ghost predicate HasCheckpoint(rows: seq<Checkpoint>, workflowId: string) {
    exists c :: c in rows && c.workflowId == workflowId
  }

  class Store {
    var rows: seq<Checkpoint>

    constructor ()
      ensures rows == []
    {
      rows := [];
    }

    method SaveCheckpoint(c: Checkpoint)
      modifies this
      ensures rows == Inserted(old(rows), c)
    {
      rows := Inserted(rows, c);
    }

    method GetLatestCheckpoint(workflowId: string) returns (r: Option<Checkpoint>)
      ensures r.None? <==> !HasCheckpoint(rows, workflowId)
      ensures r.Some? ==> IsLatest(rows, workflowId, r.value)
    {
      r := None;
      for k := 0 to |rows|
        invariant r.None? <==> !HasCheckpoint(rows[..k], workflowId)
        invariant r.Some? ==> IsLatest(rows[..k], workflowId, r.value)
      {
        assert rows[..k + 1] == rows[..k] + [rows[k]];
        if rows[k].workflowId == workflowId {
          // which of several rows with the highest index comes first is not specified
          var tie: bool := *;
          if r.None? || r.value.stepIndex < rows[k].stepIndex || (r.value.stepIndex == rows[k].stepIndex && tie) {
            r := Some(rows[k]);
          }
        }
      }
      assert rows[..|rows|] == rows;
    }
  }

  // ---- One attempt ----

  /** What a step produces when it succeeds; a function, so re-running a step repeats its result. */
  type Executor = (Step, Record) -> Record

  datatype Interrupt = NoInterrupt | PauseRequested | AbortRequested(reason: string)

  datatype CrashPoint = NoCrash | BeforeStep | BeforeCheckpoint | AfterCheckpoint

  /** Everything the surroundings decide while one step is under way. */
  datatype Surroundings = Surroundings(
    approved: bool,
    failure: Option<string>,
    callbackError: Option<string>,
    interrupt: Interrupt,
    crash: CrashPoint,
    clock: int
  )

  type Environment = nat -> Surroundings

  datatype Status = Running | Paused | Aborted | Failed | Completed

  datatype Config = Config(
    workflowId: string,
    steps: seq<Step>,
    approvalRequired: Option<set<string>>,
    asksForApproval: bool,
    notifies: bool
  )

  predicate NeedsApproval(cfg: Config, s: Step) {
    cfg.approvalRequired.Some? && s.id in cfg.approvalRequired.value && cfg.asksForApproval
  }

  /** The state with the result's keys spread over it, and the result itself under the step's own key. */
  function Advance(state: Record, s: Step, result: Record): Record {
    state + result + map["__step_" + s.id := Obj(result)]
  }

  const FAILED_STEP := "__failedStep"
  const ERROR := "__error"

  function WithFailure(state: Record, s: Step, message: string): Record {
    state + map[FAILED_STEP := Str(s.id), ERROR := Str(message)]
  }

  datatype WorkflowResult = WorkflowResult(
    workflowId: string,
    status: Status,
    completedSteps: nat,
    totalSteps: nat,
    finalState: Record,
    pausedAtStep: Option<string>,
    abortReason: Option<string>
  )

  /** How an attempt ends: the process dies, or the call returns. */
  datatype Ending = Crashed | Returned(result: WorkflowResult)

  datatype Attempt = Attempt(saves: seq<Checkpoint>, ending: Ending)

  function Requested(interrupt: Interrupt, status: Status): Status {
    match interrupt
    case NoInterrupt => status
    case PauseRequested => Paused
    case AbortRequested(_) => Aborted
  }

  function Reason(interrupt: Interrupt, reason: Option<string>): Option<string> {
    if interrupt.AbortRequested? then Some(interrupt.reason) else reason
  }

  function FailureReason(s: Step, message: string): string {
    "Step " + s.id + " failed: " + message
  }

  function PausedAt(cfg: Config, i: nat, n: nat, state: Record, s: Step): Ending {
    Returned(WorkflowResult(cfg.workflowId, Paused, i, n, state, Some(s.id), None))
  }

  function AbortedAt(cfg: Config, i: nat, n: nat, state: Record, reason: Option<string>): Ending {
    Returned(WorkflowResult(cfg.workflowId, Aborted, i, n, state, None, reason))
  }

  function FailedAt(cfg: Config, i: nat, n: nat, state: Record, s: Step, message: string): Ending {
    Returned(WorkflowResult(cfg.workflowId, Failed, i, n, state, None, Some(FailureReason(s, message))))
  }

  function CompletedWith(cfg: Config, n: nat, state: Record): Ending {
    Returned(WorkflowResult(cfg.workflowId, Completed, n, n, state, None, None))
  }

  /** One pass of the loop: the attempt ends with it, or a checkpoint is saved and it goes on. */
  datatype Pass = Stops(attempt: Attempt) | Goes(saved: Checkpoint, next: Record)

  /** The pass over step `s`, which stands at `i` among `n`. Its dependencies are not consulted. */
  function PassOver(cfg: Config, exec: Executor, s: Step, e: Surroundings, i: nat, n: nat, state: Record): Pass {
    if e.crash.BeforeStep? then Stops(Attempt([], Crashed))
    else if NeedsApproval(cfg, s) && !e.approved then
      Stops(Attempt([Checkpoint(cfg.workflowId, i - 1, state, e.clock)], PausedAt(cfg, i, n, state, s)))
    else if e.crash.BeforeCheckpoint? then Stops(Attempt([], Crashed))
    else if e.failure.Some? then
      Stops(Attempt([Checkpoint(cfg.workflowId, i - 1, WithFailure(state, s, e.failure.value), e.clock)],
                    FailedAt(cfg, i, n, state, s, e.failure.value)))
    else
      var next := Advance(state, s, exec(s, state));
      var saved := Checkpoint(cfg.workflowId, i, next, e.clock);
      if e.crash.AfterCheckpoint? then Stops(Attempt([saved], Crashed))
      else if cfg.notifies && e.callbackError.Some? then
        Stops(Attempt([saved, Checkpoint(cfg.workflowId, i - 1, WithFailure(next, s, e.callbackError.value), e.clock)],
                      FailedAt(cfg, i, n, next, s, e.callbackError.value)))
      else Goes(saved, next)
  }

  /** The attempt from step `i` of the order `ord` on. */
  function AttemptFrom(ord: seq<Step>, cfg: Config, exec: Executor, env: Environment,
                       i: nat, status: Status, reason: Option<string>, state: Record): Attempt
    decreases |ord| - i
  {
    if i >= |ord| then Attempt([], CompletedWith(cfg, |ord|, state))
    else if status == Paused then Attempt([], PausedAt(cfg, i, |ord|, state, ord[i]))
    else if status == Aborted then Attempt([], AbortedAt(cfg, i, |ord|, state, reason))
    else
      match PassOver(cfg, exec, ord[i], env(i), i, |ord|, state)
      case Stops(attempt) => attempt
      case Goes(saved, next) =>
        var rest := AttemptFrom(ord, cfg, exec, env, i + 1, Requested(env(i).interrupt, status), Reason(env(i).interrupt, reason), next);
        Attempt([saved] + rest.saves, rest.ending)
  }

  class DurableWorkflow {
    const store: Store
    const cfg: Config
    const exec: Executor
    var status: Status
    var abortReason: Option<string>

    constructor (store: Store, cfg: Config, exec: Executor)
      ensures this.store == store && this.cfg == cfg && this.exec == exec
    {
      this.store, this.cfg, this.exec := store, cfg, exec;
      status, abortReason := Running, None;
    }

    /** Start from the beginning. */
    method Run(initialState: Record, env: Environment) returns (ending: Ending)
      modifies this, store
      ensures var a := AttemptFrom(TopoOrder(cfg.steps), cfg, exec, env, 0, Running, old(abortReason), initialState);
        ending == a.ending && store.rows == InsertedAll(old(store.rows), a.saves)
      ensures ending.Returned? ==> status == ending.result.status
    {
      hide TopoOrder, AttemptFrom, InsertedAll;
      ending := ExecuteFrom(0, initialState, env);
    }

    /** Continue from the latest checkpoint of the given workflow, or of this one. */
    method Resume(workflowId: Option<string>, env: Environment) returns (ending: Option<Ending>, ghost from: Checkpoint)
      requires forall c :: c in store.rows ==> -1 <= c.stepIndex
      modifies this, store
      ensures var id := if workflowId.Some? then workflowId.value else cfg.workflowId;
        && (ending.None? <==> !HasCheckpoint(old(store.rows), id))
        && (ending.None? ==> store.rows == old(store.rows))
        && (ending.Some? ==>
              && IsLatest(old(store.rows), id, from)
              && var a := AttemptFrom(TopoOrder(cfg.steps), cfg, exec, env, from.stepIndex + 1, Running, old(abortReason), from.state);
              ending.value == a.ending && store.rows == InsertedAll(old(store.rows), a.saves))
      ensures ending.Some? && ending.value.Returned? ==> status == ending.value.result.status
    {
      hide TopoOrder, AttemptFrom, InsertedAll;
      var id := if workflowId.Some? then workflowId.value else cfg.workflowId;
      var checkpoint := store.GetLatestCheckpoint(id);
      if checkpoint.None? {
        from := Checkpoint(id, -1, map[], 0);
        return None, from;
      }
      from := checkpoint.value;
      var e := ExecuteFrom(checkpoint.value.stepIndex + 1, checkpoint.value.state, env);
      ending := Some(e);
    }

    method Pause()
      modifies this
      ensures status == Paused && abortReason == old(abortReason)
    {
      status := Paused;
    }

    method Abort(reason: string)
      modifies this
      ensures status == Aborted && abortReason == Some(reason)
    {
      status, abortReason := Aborted, Some(reason);
    }

    method SaveCheckpoint(stepIndex: int, state: Record, clock: int)
      modifies store
      ensures store.rows == Inserted(old(store.rows), Checkpoint(cfg.workflowId, stepIndex, state, clock))
    {
      store.SaveCheckpoint(Checkpoint(cfg.workflowId, stepIndex, state, clock));
    }

    method ApplyInterrupt(interrupt: Interrupt)
      modifies this
      ensures status == Requested(interrupt, old(status)) && abortReason == Reason(interrupt, old(abortReason))
    {
      match interrupt
      case NoInterrupt =>
      case PauseRequested => Pause();
      case AbortRequested(reason) => Abort(reason);
    }

    /** The loop over the ordered steps. It tests each step's dependencies and would pass over a
        step with an unmet one; the postcondition says that it never does. */
    method ExecuteFrom(startIndex: nat, initialState: Record, env: Environment) returns (ending: Ending)
      modifies this, store
      ensures var a := AttemptFrom(TopoOrder(cfg.steps), cfg, exec, env, startIndex, Running, old(abortReason), initialState);
        ending == a.ending && store.rows == InsertedAll(old(store.rows), a.saves)
      ensures ending.Returned? ==> status == ending.result.status
    {
      hide TopoOrder, PassOver, InsertedAll;
      status := Running;
      var state := initialState;
      var ordered := TopologicalSort(cfg.steps);
      var completedStepIds := FirstIds(ordered, startIndex);
      ghost var whole := AttemptFrom(ordered, cfg, exec, env, startIndex, Running, old(abortReason), initialState);
      ghost var saved: seq<Checkpoint> := [];
      InsertedNone(store.rows);
      var i := startIndex;
      while i < |ordered|
        invariant startIndex <= i
        invariant i < |ordered| ==> completedStepIds == Ids(ordered[..i])
        invariant store.rows == InsertedAll(old(store.rows), saved)
        invariant var rest := AttemptFrom(ordered, cfg, exec, env, i, status, abortReason, state);
          whole == Attempt(saved + rest.saves, rest.ending)
        invariant status == Running || status == Paused || status == Aborted
      {
        var step := ordered[i];
        assert saved + [] == saved;
        if status == Paused {
          return PausedAt(cfg, i, |ordered|, state, step);
        }
        if status == Aborted {
          return AbortedAt(cfg, i, |ordered|, state, abortReason);
        }
        var unmet := set d | d in step.Deps() && d !in completedStepIds;
        if unmet != {} {
          var d :| d in unmet;
          DependenciesPrecede(cfg.steps, i, d);
          assert false;
        }
        ghost var pass := PassOver(cfg, exec, step, env(i), i, |ordered|, state);
        ghost var more := if pass.Stops? then pass.attempt.saves else [pass.saved];
        InsertedAllConcat(old(store.rows), saved, more);
        var stop, next := RunStep(step, i, |ordered|, state, env(i));
        if stop.Some? {
          return stop.value;
        }
        state := next;
        saved := saved + more;
        assert ordered[..i + 1] == ordered[..i] + [step];
        completedStepIds := completedStepIds + {step.id};
        i := i + 1;
      }
      assert saved + [] == saved;
      status := Completed;
      return CompletedWith(cfg, |ordered|, state);
    }

    /** The rest of the loop's body, from the approval check on. */
    method RunStep(step: Step, i: nat, n: nat, state: Record, e: Surroundings) returns (stop: Option<Ending>, next: Record)
      requires status == Running
      modifies this, store
      ensures match PassOver(cfg, exec, step, e, i, n, state)
        case Stops(a) =>
          && stop == Some(a.ending) && store.rows == InsertedAll(old(store.rows), a.saves)
          && (a.ending.Returned? ==> status == a.ending.result.status)
        case Goes(c, s) =>
          && stop == None && next == s && store.rows == InsertedAll(old(store.rows), [c])
          && status == Requested(e.interrupt, old(status)) && abortReason == Reason(e.interrupt, old(abortReason))
    {
      hide Inserted, Advance, WithFailure, NeedsApproval;
      ghost var rows := store.rows;
      assert forall c :: InsertedAll(rows, [c]) == Inserted(rows, c);
      next := state;
      if e.crash.BeforeStep? {
        return Some(Crashed), next;
      }
      if NeedsApproval(cfg, step) && !e.approved {
        status := Paused;
        SaveCheckpoint(i - 1, state, e.clock);
        return Some(PausedAt(cfg, i, n, state, step)), next;
      }
      if e.crash.BeforeCheckpoint? {
        return Some(Crashed), next;
      }
      if e.failure.Some? {
        SaveCheckpoint(i - 1, WithFailure(state, step, e.failure.value), e.clock);
        status := Failed;
        return Some(FailedAt(cfg, i, n, state, step, e.failure.value)), next;
      }
      next := Advance(state, step, exec(step, state));
      SaveCheckpoint(i, next, e.clock);
      if e.crash.AfterCheckpoint? {
        return Some(Crashed), next;
      }
      if cfg.notifies && e.callbackError.Some? {
        InsertedTwo(rows, Checkpoint(cfg.workflowId, i, next, e.clock),
                    Checkpoint(cfg.workflowId, i - 1, WithFailure(next, step, e.callbackError.value), e.clock));
        SaveCheckpoint(i - 1, WithFailure(next, step, e.callbackError.value), e.clock);
        status := Failed;
        return Some(FailedAt(cfg, i, n, next, step, e.callbackError.value)), next;
      }
      ApplyInterrupt(e.interrupt);
      return None, next;
    }
  }

  lemma {:induction false} InsertedTwo(rows: seq<Checkpoint>, c: Checkpoint, d: Checkpoint)
    ensures InsertedAll(rows, [c, d]) == Inserted(Inserted(rows, c), d)
  {
    hide Inserted;
    var cs := [c, d];
    assert cs[0] == c && cs[1..] == [d];
    assert InsertedAll(Inserted(rows, c), [d]) == InsertedAll(Inserted(Inserted(rows, c), d), []);
  }

  /** The ids of the steps before `startIndex`, all counted as completed. */
  method FirstIds(ordered: seq<Step>, startIndex: nat) returns (ids: set<string>)
    ensures startIndex < |ordered| ==> ids == Ids(ordered[..startIndex])
  {
    ids := {};
    var k := 0;
    while k < startIndex && k < |ordered|
      invariant k <= startIndex && k <= |ordered|
      invariant ids == Ids(ordered[..k])
    {
      assert ordered[..k + 1] == ordered[..k] + [ordered[k]];
      ids := ids + {ordered[k].id};
      k := k + 1;
    }
  }

  /** The executor's own copy of Kahn's algorithm. */
  method TopologicalSort(steps: seq<Step>) returns (sorted: seq<Step>)
    ensures sorted == TopoOrder(steps)
  {
    hide Tabulates, Edges;
    var order, inDegree, adjacency, stepMap := CollectSteps(steps);
    inDegree, adjacency := CollectEdges(steps, inDegree, adjacency);
    NodeIdsNoDup(steps);
    EdgeTargetsAreNodes(steps);
    TabulatedDegrees(inDegree, adjacency, Edges(steps), order);
    var queue := ZeroDegrees(order, inDegree, Edges(steps));
    var out := DrainQueue(NodeIds(steps), Edges(steps), inDegree, adjacency, queue);
    assert out == OrderIds(steps);
    sorted := LookUpAll(steps, out, stepMap);
  }

  method LookUpAll(ghost steps: seq<Step>, ids: seq<string>, stepMap: map<string, Step>) returns (sorted: seq<Step>)
    requires forall id :: id in ids ==> id in NodeIds(steps)
    requires forall id :: id in NodeIds(steps) ==> id in stepMap && stepMap[id] == StepWithId(steps, id)
    ensures sorted == StepsWithIds(steps, ids)
  {
    hide NodeIds;
    sorted := [];
    for k := 0 to |ids|
      invariant sorted == StepsWithIds(steps, ids[..k])
    {
      assert ids[..k + 1][..k] == ids[..k];
      assert ids[k] in ids;
      sorted := sorted + [stepMap[ids[k]]];
    }
    assert ids[..|ids|] == ids;
  }

  method CollectSteps(steps: seq<Step>)
    returns (order: seq<string>, inDegree: map<string, int>, adjacency: map<string, seq<string>>, stepMap: map<string, Step>)
    ensures order == NodeIds(steps) && inDegree.Keys == stepMap.Keys == Elems(order)
    ensures forall id :: id in order ==> stepMap[id] == StepWithId(steps, id)
    ensures Tabulates(inDegree, adjacency, [])
  {
    hide Tabulates, NodeIds, StepWithId;
    order, inDegree, adjacency, stepMap := [], map[], map[], map[];
    EmptyTables();
    NoIds(steps);
    for i := 0 to |steps|
      invariant order == NodeIds(steps[..i]) && inDegree.Keys == stepMap.Keys == Elems(order)
      invariant forall id :: id in order ==> stepMap[id] == StepWithId(steps[..i], id)
      invariant Tabulates(inDegree, adjacency, [])
    {
      var step := steps[i];
      IdsSnoc(steps, i);
      TabulatesNewVertex(inDegree, adjacency, [], step.id);
      if step.id !in inDegree {
        order := order + [step.id];
      }
      stepMap := stepMap[step.id := step];
      inDegree := inDegree[step.id := 0];
      if step.id !in adjacency {
        TabulatesNewList(inDegree, adjacency, [], step.id);
        adjacency := adjacency[step.id := []];
      }
    }
    assert steps[..|steps|] == steps;
  }

  method CollectEdges(steps: seq<Step>, inDegree0: map<string, int>, adjacency0: map<string, seq<string>>)
    returns (inDegree: map<string, int>, adjacency: map<string, seq<string>>)
    requires inDegree0.Keys == Elems(NodeIds(steps)) && Tabulates(inDegree0, adjacency0, [])
    ensures inDegree.Keys == inDegree0.Keys && Tabulates(inDegree, adjacency, Edges(steps))
  {
    hide Tabulates, Edges;
    inDegree, adjacency := inDegree0, adjacency0;
    NoEdges(steps);
    for i := 0 to |steps|
      invariant inDegree.Keys == inDegree0.Keys
      invariant Tabulates(inDegree, adjacency, Edges(steps[..i]))
    {
      assert steps[i] in steps && steps[i].id in Elems(NodeIds(steps));
      inDegree, adjacency := AddDependencies(steps[i].id, steps[i].Deps(), inDegree, adjacency, Edges(steps[..i]));
      EdgesSnoc(steps, i);
    }
    assert steps[..|steps|] == steps;
  }

  lemma NoIds(steps: seq<Step>)
    ensures NodeIds(steps[..0]) == []
  {
  }

  lemma {:induction false} IdsSnoc(steps: seq<Step>, i: nat)
    requires i < |steps|
    ensures NodeIds(steps[..i + 1]) == NodeIds(steps[..i]) + if steps[i].id in NodeIds(steps[..i]) then [] else [steps[i].id]
    ensures forall id :: id in NodeIds(steps[..i + 1]) ==>
      StepWithId(steps[..i + 1], id) == if id == steps[i].id then steps[i] else StepWithId(steps[..i], id)
  {
    var front, all := steps[..i], steps[..i + 1];
    assert all[..|all| - 1] == front && all[|all| - 1] == steps[i];
    assert NodeIds(front) + [] == NodeIds(front);
    forall id | id in NodeIds(all)
      ensures StepWithId(all, id) == if id == steps[i].id then steps[i] else StepWithId(front, id)
    {
    }
  }

  lemma EmptyTables()
    ensures Tabulates(map[], map[], [])
  {
  }

  lemma NoEdges(steps: seq<Step>)
    ensures Edges(steps[..0]) == []
  {
  }

  lemma {:induction false} EdgesSnoc(steps: seq<Step>, i: nat)
    requires i < |steps|
    ensures Edges(steps[..i + 1]) == Edges(steps[..i]) + EdgesInto(steps[i].id, steps[i].Deps())
  {
    assert steps[..i + 1][..i] == steps[..i];
  }

  lemma {:induction false} TabulatedDegrees(inDegree: map<string, int>, adjacency: map<string, seq<string>>, es: seq<Edge>, order: seq<string>)
    requires Tabulates(inDegree, adjacency, es) && inDegree.Keys == Elems(order)
    ensures forall v :: v in order ==> v in inDegree && inDegree[v] == InDegree(es, v, {})
  {
    forall v | v in order
      ensures v in inDegree
    {
      assert v in Elems(order);
    }
  }
}
